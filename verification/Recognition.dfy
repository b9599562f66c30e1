/** Grouping of scanned files into recognition units, and the identities those units keep. */
module Recognition {
  import opened Common
  import opened Text
  import opened Sorting
  import opened Scan
  import opened Paths

  const MAX_EVIDENCE: nat := 32

  datatype MediaType = Tv | Movie

  datatype Parsed = Parsed(mediaType: MediaType, seriesTitle: string)

  /** The filename parser and the two season-directory tests, as functions of the path text. */
  datatype Parser = Parser(
    parse: string -> Parsed, seasonFolder: string -> bool, releaseDirectory: (string, string, Parsed) -> bool)

  // ---- Paths --------------------------------------------------------------------------------

  /** normalizeFactPath */
  function NormalizeFactPath(value: string): string {
    "/" + TrimSlashesLeft(CleanRooted("/" + TrimSlashesLeft(Slashed(TrimSpace(value)))))
  }

  function LastSlash(path: string): int {
    if path == [] then -1 else if path[|path| - 1] == '/' then |path| - 1 else LastSlash(path[..|path| - 1])
  }

  /** path.Dir on a clean rooted path. */
  function Dir(path: string): string {
    var i := LastSlash(path);
    if 0 < i < |path| then path[..i] else "/"
  }

  /** path.Base on a clean rooted path. */
  function BaseName(path: string): string {
    var i := LastSlash(path);
    if path == "/" || path == "" then "/" else if 0 <= i < |path| then path[i + 1..] else path
  }

  function Stem(name: string): string {
    var ext := Ext(name);
    if |ext| <= |name| then name[..|name| - |ext|] else name
  }

  // ---- Group keys ---------------------------------------------------------------------------

  datatype GroupKey = Disc(outer: string) | TvRoot(title: string) | TvDir(directory: string)
                    | SingleFile(path: string) | MovieDir(directory: string)

  datatype BucketKey = BucketKey(mediaType: MediaType, group: GroupKey)

  predicate IsDiscFolder(part: string) { Lower(part) == "bdmv" || Lower(part) == "video_ts" }

  /** The position of the first disc folder, or the number of parts. */
  function DiscIndex(parts: seq<string>): nat {
    if parts == [] then 0 else if IsDiscFolder(parts[0]) then 0 else 1 + DiscIndex(parts[1..])
  }

  /** discOuterDirectory */
  function DiscOuter(relative: string): Option<string> {
    var parts := Split(TrimSlashesRight(TrimSlashesLeft(relative)), '/');
    var i := DiscIndex(parts);
    if 0 < i < |parts| then Some(Rooted(parts[..i])) else None
  }

  function SeriesDirectory(p: Parser, relative: string): string {
    var directory := Dir(relative);
    var name, above := BaseName(directory), Dir(directory);
    if p.seasonFolder(name) || p.releaseDirectory(name, BaseName(above), p.parse(relative)) then above else directory
  }

  /** recognitionGroup: the key and the package name. */
  function Group(p: Parser, relative: string): (GroupKey, string) {
    var parsed, outer, directory := p.parse(relative), DiscOuter(relative), Dir(relative);
    if outer.Some? then (Disc(outer.value), BaseName(outer.value))
    else if parsed.mediaType.Tv? then
      var series := SeriesDirectory(p, relative);
      if series == "/" then
        var title := TrimSpace(parsed.seriesTitle);
        var name := if title == "" then Stem(BaseName(relative)) else title;
        (TvRoot(Lower(name)), name)
      else (TvDir(series), BaseName(series))
    else if directory == "/" then (SingleFile(relative), Stem(BaseName(relative)))
    else (MovieDir(directory), BaseName(directory))
  }

  function KeyOf(p: Parser, file: File): BucketKey {
    var relative := NormalizeFactPath(file.relativePath);
    BucketKey(p.parse(relative).mediaType, Group(p, relative).0)
  }

  function NameOf(p: Parser, file: File): string { Group(p, NormalizeFactPath(file.relativePath)).1 }

  // ---- Identities of a unit -----------------------------------------------------------------

  /** The hashed text, taken as injective: a path identity or one provider anchor. */
  datatype SourceKey = PathIdentity(group: GroupKey) | ProviderAnchor(id: string)

  datatype Fact = Fact(path: string, size: int, modifiedAt: int)

  datatype Fingerprint = Fingerprint(mediaType: MediaType, name: string, physical: Option<(GroupKey, seq<Fact>)>)

  predicate Stable(file: File) { file.providerIdStable && TrimSpace(file.providerId) != "" }

  predicate AllStable(files: seq<File>) { files != [] && forall i :: 0 <= i < |files| ==> Stable(files[i]) }

  /** The first provider identity in string order. */
  function LeastId(files: seq<File>): string
    requires files != []
  {
    if |files| == 1 then files[0].providerId
    else
      var rest := LeastId(files[..|files| - 1]);
      if Less(files[|files| - 1].providerId, rest) then files[|files| - 1].providerId else rest
  }

  predicate IsTvGroup(group: GroupKey) { group.TvDir? || group.TvRoot? }

  /** recognitionSourceKey */
  function SourceKeyOf(group: GroupKey, files: seq<File>): SourceKey {
    if AllStable(files) && !IsTvGroup(group) then ProviderAnchor(LeastId(files)) else PathIdentity(group)
  }

  function FactOf(f: File): Fact { Fact(NormalizeFactPath(f.relativePath), f.size, f.modifiedAt) }

  function Facts(files: seq<File>): seq<Fact> {
    seq(|files|, i requires 0 <= i < |files| => FactOf(files[i]))
  }

  /** recognitionInputFingerprint */
  function FingerprintOf(key: BucketKey, name: string, files: seq<File>): Fingerprint {
    Fingerprint(key.mediaType, TrimSpace(name), if key.group.SingleFile? then Some((key.group, Facts(files))) else None)
  }

  // ---- TV directories keep their identity ---------------------------------------------------

  lemma TvDirName(p: Parser, file: File, directory: string)
    requires KeyOf(p, file) == BucketKey(Tv, TvDir(directory))
    ensures NameOf(p, file) == BaseName(directory)
  {
  }

  lemma JoiningKeepsAnchor(group: GroupKey, files: seq<File>, file: File)
    requires files != []
    ensures SourceKeyOf(group, files + [file]) == SourceKeyOf(group, files) <==>
            IsTvGroup(group) || !AllStable(files) || (Stable(file) && !Less(file.providerId, LeastId(files)))
  {
    var more := files + [file];
    assert more[..|more| - 1] == files;
    assert AllStable(more) <==> AllStable(files) && Stable(file) by {
      if AllStable(more) {
        forall i | 0 <= i < |files| ensures Stable(files[i]) { assert more[i] == files[i]; }
        assert more[|files|] == file;
      }
    }
    LessIrreflexive(LeastId(files));
  }

  lemma {:induction false} LeastIsLeast(files: seq<File>)
    requires files != []
    ensures exists f :: f in files && f.providerId == LeastId(files)
    ensures forall f :: f in files ==> !Less(f.providerId, LeastId(files))
  {
    var n := |files| - 1;
    assert files == files[..n] + [files[n]];
    if n == 0 {
      LessIrreflexive(files[0].providerId);
    } else {
      LeastIsLeast(files[..n]);
      LastOrLess(files[..n], files[n]);
    }
  }

  lemma LastOrLess(files: seq<File>, last: File)
    requires files != [] && forall f :: f in files ==> !Less(f.providerId, LeastId(files))
    ensures forall f :: f in files + [last] && Less(last.providerId, LeastId(files)) ==>
              !Less(f.providerId, last.providerId)
  {
    LessIrreflexive(last.providerId);
    forall f | f in files && Less(last.providerId, LeastId(files)) ensures !Less(f.providerId, last.providerId) {
      if Less(f.providerId, last.providerId) { LessTransitive(f.providerId, last.providerId, LeastId(files)); }
    }
  }

  /** The anchor and the question whether there is one do not depend on the order of the files. */
  lemma SourceKeyPermutes(group: GroupKey, a: seq<File>, b: seq<File>)
    requires multiset(a) == multiset(b)
    ensures SourceKeyOf(group, a) == SourceKeyOf(group, b) && (AllStable(a) <==> AllStable(b))
    ensures a != [] ==> b != [] && LeastId(a) == LeastId(b)
  {
    SameMembers(a, b);
    if a == [] {
    } else {
      LeastIsLeast(a);
      LeastIsLeast(b);
      var x :| x in a && x.providerId == LeastId(a);
      var y :| y in b && y.providerId == LeastId(b);
      LessTotal(LeastId(a), LeastId(b));
      StablePermutes(a, b);
      StablePermutes(b, a);
    }
  }

  /** The file has an identity of its own that the provider keeps. */
  predicate Lasting(file: File) {
    file.providerIdStable && exists i :: 0 <= i < |file.providerId| && !IsSpace(file.providerId[i])
  }

  lemma StableIsLasting(files: seq<File>)
    requires files != []
    ensures AllStable(files) <==> forall f :: f in files ==> Lasting(f)
  {
    forall f: File ensures Stable(f) <==> Lasting(f) { BlankMeaning(f.providerId); }
    if AllStable(files) {
      forall f | f in files ensures Lasting(f) {
        var i :| 0 <= i < |files| && files[i] == f;
        assert Stable(files[i]);
      }
    } else {
      var i :| 0 <= i < |files| && !Stable(files[i]);
      assert files[i] in files;
    }
  }

  /** The id is a smallest provider identity of the files. */
  predicate Smallest(files: seq<File>, id: string) {
    (exists f :: f in files && f.providerId == id) && forall f :: f in files ==> !Less(f.providerId, id)
  }

  lemma SmallestIsLeast(files: seq<File>, id: string)
    requires files != []
    ensures Smallest(files, id) <==> LeastId(files) == id
  {
    LeastIsLeast(files);
    LessTotal(LeastId(files), id);
  }

  /** A unit is anchored at an identity exactly when it is no TV unit and, all files lasting, this is the smallest. */
  lemma AnchorIff(group: GroupKey, files: seq<File>, id: string)
    requires files != []
    ensures SourceKeyOf(group, files) == ProviderAnchor(id) <==>
            !group.TvDir? && !group.TvRoot? && (forall f :: f in files ==> Lasting(f)) && Smallest(files, id)
    ensures SourceKeyOf(group, files).PathIdentity? ==> SourceKeyOf(group, files) == PathIdentity(group)
  {
    StableIsLasting(files);
    SmallestIsLeast(files, id);
  }

  lemma StablePermutes(a: seq<File>, b: seq<File>)
    requires a != [] && b != [] && forall f :: f in b ==> f in a
    ensures AllStable(a) ==> AllStable(b)
  {
    if AllStable(a) {
      forall i | 0 <= i < |b| ensures Stable(b[i]) {
        assert b[i] in a;
        var k :| 0 <= k < |a| && a[k] == b[i];
      }
    }
  }

  // ---- Evidence -----------------------------------------------------------------------------

  predicate EvidenceLess(a: File, b: File) {
    var left, right := NormalizeFactPath(a.relativePath), NormalizeFactPath(b.relativePath);
    if left == right then Less(a.providerId, b.providerId) else Less(left, right)
  }

  /** RecognitionEvidenceFiles */
  function Evidence(files: seq<File>): seq<File> {
    var ordered := Sort(EvidenceLess, files);
    if |ordered| > MAX_EVIDENCE then ordered[..MAX_EVIDENCE] else ordered
  }

  lemma PairOrder(a: File, b: File, c: File)
    ensures !EvidenceLess(a, a)
    ensures EvidenceLess(a, b) && EvidenceLess(b, c) ==> EvidenceLess(a, c)
    ensures EvidenceLess(a, c) ==> EvidenceLess(a, b) || EvidenceLess(b, c)
  {
    var x, y := NormalizeFactPath(a.relativePath), NormalizeFactPath(b.relativePath);
    var z := NormalizeFactPath(c.relativePath);
    LessIsWeakOrder();
    LessTotal(x, y);
    LessTotal(y, z);
  }

  lemma EvidenceWeak()
    ensures WeakOrder(EvidenceLess)
  {
    forall a: File, b: File, c: File
      ensures !EvidenceLess(a, a)
      ensures EvidenceLess(a, b) && EvidenceLess(b, c) ==> EvidenceLess(a, c)
      ensures EvidenceLess(a, c) ==> EvidenceLess(a, b) || EvidenceLess(b, c)
    {
      PairOrder(a, b, c);
    }
  }

  /** The pair of path and provider identity does not come before the other in lexicographic order. */
  predicate NotBefore(a: File, b: File) {
    var x, y := NormalizeFactPath(a.relativePath), NormalizeFactPath(b.relativePath);
    !Less(x, y) && (x == y ==> !Less(a.providerId, b.providerId))
  }

  /** The evidence is the 32 smallest files by path and provider identity, in that order. */
  lemma EvidenceIsSmallest(files: seq<File>)
    ensures var e := Evidence(files);
            && |e| == (if |files| < 32 then |files| else 32) && multiset(e) <= multiset(files)
            && (forall i, j :: 0 <= i < j < |e| ==> NotBefore(e[j], e[i]))
            && forall x, y :: x in e && y in multiset(files) - multiset(e) ==> NotBefore(y, x)
  {
    EvidenceWeak();
    SortSorts(EvidenceLess, files);
    var s, e := Sort(EvidenceLess, files), Evidence(files);
    SameMembers(s, files);
    if |s| > MAX_EVIDENCE {
      CutApart(s, MAX_EVIDENCE);
    } else {
      assert multiset(files) - multiset(e) == multiset{};
    }
    forall x: File, y: File ensures EvidenceLess(y, x) || NotBefore(y, x) { PairCompared(y, x); }
  }

  lemma PairCompared(a: File, b: File)
    ensures EvidenceLess(a, b) <==> !NotBefore(a, b)
  {
    LessIrreflexive(NormalizeFactPath(a.relativePath));
  }

  /** In an ordered list nothing behind a cut is smaller than anything before it. */
  lemma CutApart(s: seq<File>, n: nat)
    requires n <= |s| && Ascending(EvidenceLess, s)
    ensures multiset(s[..n]) <= multiset(s) && multiset(s) - multiset(s[..n]) == multiset(s[n..])
    ensures forall x, y :: x in s[..n] && y in multiset(s[n..]) ==> !EvidenceLess(y, x)
  {
    assert s == s[..n] + s[n..];
    forall x, y | x in s[..n] && y in s[n..] ensures !EvidenceLess(y, x) {
      var i :| 0 <= i < |s[..n]| && s[..n][i] == x;
      var j :| 0 <= j < |s[n..]| && s[n..][j] == y;
      assert s[i] == x && s[n + j] == y;
    }
  }

  function PairOf(file: File): (string, string) { (NormalizeFactPath(file.relativePath), file.providerId) }

  lemma PairsSeparate(s: seq<File>)
    requires DistinctBy(PairOf, s)
    ensures Separates(EvidenceLess, s)
  {
    forall x, y | x in s && y in s && x != y ensures EvidenceLess(x, y) || EvidenceLess(y, x) {
      var i :| 0 <= i < |s| && s[i] == x;
      var j :| 0 <= j < |s| && s[j] == y;
      assert PairOf(x) != PairOf(y);
      LessTotal(PairOf(x).0, PairOf(y).0);
      LessTotal(PairOf(x).1, PairOf(y).1);
    }
  }

  /** With distinct pairs the evidence does not depend on the order of the input. */
  lemma EvidenceIgnoresOrder(a: seq<File>, b: seq<File>)
    requires multiset(a) == multiset(b) && DistinctBy(PairOf, a)
    ensures Evidence(a) == Evidence(b)
  {
    EvidenceWeak();
    SortSorts(EvidenceLess, a);
    SortSorts(EvidenceLess, b);
    DistinctByPermutes(PairOf, a, Sort(EvidenceLess, a));
    PairsSeparate(Sort(EvidenceLess, a));
    SortUnique(EvidenceLess, Sort(EvidenceLess, a), Sort(EvidenceLess, b));
  }

  // ---- Grouping -----------------------------------------------------------------------------

  /** The bucket key and the package name of a file. */
  datatype Tag = Tag(key: File -> BucketKey, name: File -> string)

  function TagOf(p: Parser): Tag { Tag(f => KeyOf(p, f), f => NameOf(p, f)) }

  /** The files of one bucket in input order. */
  function Members(tag: Tag, files: seq<File>, key: BucketKey): seq<File> {
    if files == [] then []
    else
      var last := files[|files| - 1];
      Members(tag, files[..|files| - 1], key) + if tag.key(last) == key then [last] else []
  }

  lemma {:induction false} MembersHaveKey(tag: Tag, files: seq<File>, key: BucketKey)
    ensures forall f :: f in Members(tag, files, key) <==> f in files && tag.key(f) == key
  {
    if files == [] {
    } else {
      var n := |files| - 1;
      MembersHaveKey(tag, files[..n], key);
      assert files == files[..n] + [files[n]];
      assert forall f :: f in files <==> f in files[..n] || f == files[n];
    }
  }

  lemma {:induction false} NoMembers(tag: Tag, files: seq<File>, key: BucketKey)
    requires forall f :: f in files ==> tag.key(f) != key
    ensures Members(tag, files, key) == []
  {
    if files == [] {
    } else {
      NoMembers(tag, files[..|files| - 1], key);
    }
  }

  /** Every occurrence of a file lies in the bucket of its key and in no other. */
  lemma {:induction false} MembersPartition(tag: Tag, files: seq<File>, key: BucketKey, f: File)
    ensures multiset(Members(tag, files, key))[f] == if tag.key(f) == key then multiset(files)[f] else 0
  {
    if files == [] {
    } else {
      var n := |files| - 1;
      MembersPartition(tag, files[..n], key, f);
      assert files == files[..n] + [files[n]];
    }
  }

  datatype Unit = Unit(
    key: BucketKey, sourceKey: SourceKey, fingerprint: Fingerprint, packageName: string, files: seq<File>,
    evidence: seq<File>)

  predicate PathLess(a: File, b: File) { Less(NormalizeFactPath(a.relativePath), NormalizeFactPath(b.relativePath)) }

  function UnitOf(key: BucketKey, name: string, sorted: seq<File>): Unit {
    Unit(key, SourceKeyOf(key.group, sorted), FingerprintOf(key, name, sorted), name, sorted, Evidence(sorted))
  }

  /** A unit built from the bucket of its key: sorted members, named after the first of them. */
  ghost predicate UnitFits(tag: Tag, files: seq<File>, u: Unit) {
    var members := Members(tag, files, u.key);
    members != [] && IsSortOf(PathLess, members, u.files) && u == UnitOf(u.key, tag.name(members[0]), u.files)
  }

  /** The files of a unit are in ascending order of their normalised paths. */
  lemma FilesInOrder(tag: Tag, files: seq<File>, u: Unit, i: nat, j: nat)
    requires UnitFits(tag, files, u) && i < j < |u.files|
    ensures !Less(NormalizeFactPath(u.files[j].relativePath), NormalizeFactPath(u.files[i].relativePath))
  {
  }

  /** Each file occurs in its own unit as often as in the input, and in no other unit. */
  lemma UnitsPartition(tag: Tag, files: seq<File>, u: Unit, f: File)
    requires UnitFits(tag, files, u)
    ensures multiset(u.files)[f] == if tag.key(f) == u.key then multiset(files)[f] else 0
  {
    MembersPartition(tag, files, u.key, f);
  }

  lemma UnitGains(tag: Tag, before: seq<File>, after: seq<File>, file: File, u: Unit, v: Unit)
    requires UnitFits(tag, before, u) && UnitFits(tag, after, v) && u.key == v.key == tag.key(file)
    requires multiset(after) == multiset(before) + multiset{file}
    ensures multiset(v.files) == multiset(u.files + [file])
  {
    forall f ensures multiset(v.files)[f] == multiset(u.files + [file])[f] {
      UnitsPartition(tag, before, u, f);
      UnitsPartition(tag, after, v, f);
    }
  }

  /**
   A comment in the source promises that an anchor keeps the identity of a work when files join its directory. Wherever
   the newcomer sorts, it does so exactly when the group is a TV group, was not anchored before, or the newcomer is
   stable and its identity is not smaller than the anchor.
   */
  lemma JoiningKeepsSourceKey(tag: Tag, before: seq<File>, after: seq<File>, file: File, u: Unit, v: Unit)
    requires UnitFits(tag, before, u) && UnitFits(tag, after, v) && u.key == v.key == tag.key(file)
    requires multiset(after) == multiset(before) + multiset{file}
    ensures u.files != []
    ensures u.sourceKey == v.sourceKey <==>
            || IsTvGroup(u.key.group) || !AllStable(u.files)
            || (Stable(file) && !Less(file.providerId, LeastId(u.files)))
  {
    UnitGains(tag, before, after, file, u, v);
    SameMembers(u.files, Members(tag, before, u.key));
    SourceKeyPermutes(u.key.group, v.files, u.files + [file]);
    JoiningKeepsAnchor(u.key.group, u.files, file);
  }

  function AllFiles(units: seq<Unit>): seq<File> {
    if units == [] then [] else AllFiles(units[..|units| - 1]) + units[|units| - 1].files
  }

  /** A file that only unit k holds, if any, is held by all units together as often as by that one. */
  lemma {:induction false} HeldOnce(units: seq<Unit>, f: File, k: int, n: nat)
    requires forall i :: 0 <= i < |units| ==> multiset(units[i].files)[f] == if i == k then n else 0
    ensures multiset(AllFiles(units))[f] == if 0 <= k < |units| then n else 0
  {
    if units == [] {
    } else {
      HeldOnce(units[..|units| - 1], f, k, n);
    }
  }

  /** The units together hold every input file exactly as often as the input does. */
  lemma UnitsConserve(tag: Tag, files: seq<File>, units: seq<Unit>)
    requires (forall u :: u in units ==> UnitFits(tag, files, u)) && DistinctBy(UnitKey, units)
    requires forall f :: f in files ==> exists u :: u in units && u.key == tag.key(f)
    ensures multiset(AllFiles(units)) == multiset(files)
  {
    forall f ensures multiset(AllFiles(units))[f] == multiset(files)[f] {
      var k := OwnUnit(tag, files, units, f);
      forall i | 0 <= i < |units| ensures multiset(units[i].files)[f] == if i == k then multiset(files)[f] else 0 {
        assert units[i] in units;
        UnitsPartition(tag, files, units[i], f);
      }
      HeldOnce(units, f, k, multiset(files)[f]);
    }
  }

  /** The only unit with the key of f, or -1; a file of the input has one. */
  lemma OwnUnit(tag: Tag, files: seq<File>, units: seq<Unit>, f: File) returns (k: int)
    requires DistinctBy(UnitKey, units)
    requires f in files ==> exists u :: u in units && u.key == tag.key(f)
    ensures forall i :: 0 <= i < |units| ==> (units[i].key == tag.key(f) <==> i == k)
    ensures -1 <= k < |units| && (f in files ==> k >= 0)
  {
    if i :| 0 <= i < |units| && UnitKey(units[i]) == tag.key(f) {
      k := i;
      forall j | 0 <= j < |units| && j != i ensures units[j].key != tag.key(f) {
        assert UnitKey(units[j]) != UnitKey(units[i]);
      }
    } else {
      k := -1;
      forall i | 0 <= i < |units| ensures units[i].key != tag.key(f) { assert UnitKey(units[i]) != tag.key(f); }
    }
  }

  /**
   A TV-directory unit keeps its source key, its fingerprint and its name whatever other files come and go, as long
   as one file of the directory remains.
   */
  lemma TvDirectoryIsStable(p: Parser, before: seq<File>, after: seq<File>, u: Unit, v: Unit)
    requires UnitFits(TagOf(p), before, u) && UnitFits(TagOf(p), after, v)
    requires u.key == v.key && u.key.mediaType.Tv? && u.key.group.TvDir?
    ensures u.sourceKey == v.sourceKey && u.fingerprint == v.fingerprint && u.packageName == v.packageName
    ensures u.packageName == BaseName(u.key.group.directory)
  {
    var tag := TagOf(p);
    MembersHaveKey(tag, before, u.key);
    MembersHaveKey(tag, after, v.key);
    var first, other := Members(tag, before, u.key)[0], Members(tag, after, v.key)[0];
    assert first in Members(tag, before, u.key) && other in Members(tag, after, v.key);
    TvDirName(p, first, u.key.group.directory);
    TvDirName(p, other, u.key.group.directory);
  }

  datatype Bucket = Bucket(name: string, files: seq<File>)

  ghost predicate Filled(tag: Tag, files: seq<File>, buckets: map<BucketKey, Bucket>) {
    && (forall f :: f in files ==> tag.key(f) in buckets)
    && (forall key :: key in buckets ==>
          && Members(tag, files, key) != [] && buckets[key].files == Members(tag, files, key)
          && buckets[key].name == tag.name(Members(tag, files, key)[0]))
  }

  lemma FilledNext(tag: Tag, files: seq<File>, i: nat, buckets: map<BucketKey, Bucket>)
    requires i < |files| && Filled(tag, files[..i], buckets)
    ensures var f := files[i];
            var key := tag.key(f);
            var was := if key in buckets then buckets[key] else Bucket(tag.name(f), []);
            Filled(tag, files[..i + 1], buckets[key := was.(files := was.files + [f])])
  {
    var f, key := files[i], tag.key(files[i]);
    var was := if key in buckets then buckets[key] else Bucket(tag.name(f), []);
    var next := buckets[key := was.(files := was.files + [f])];
    assert files[..i + 1][..i] == files[..i];
    if key !in buckets { NoMembers(tag, files[..i], key); }
    forall k | k in next
      ensures Members(tag, files[..i + 1], k) != [] && next[k].files == Members(tag, files[..i + 1], k)
              && next[k].name == tag.name(Members(tag, files[..i + 1], k)[0])
    {
      assert k == key || k in buckets;
    }
    forall g | g in files[..i + 1] ensures tag.key(g) in next {
      assert g in files[..i] || g == f;
    }
  }

  method FillBuckets(tag: Tag, files: seq<File>) returns (buckets: map<BucketKey, Bucket>)
    ensures Filled(tag, files, buckets)
  {
    buckets := map[];
    var i := 0;
    while i < |files|
      invariant 0 <= i <= |files| && Filled(tag, files[..i], buckets)
    {
      FilledNext(tag, files, i, buckets);
      var key := tag.key(files[i]);
      var current := if key in buckets then buckets[key] else Bucket(tag.name(files[i]), []);
      buckets := buckets[key := current.(files := current.files + [files[i]])];
      i := i + 1;
    }
    assert files[..i] == files;
  }

  lemma PathWeak()
    ensures WeakOrder(PathLess)
  {
    LessIsWeakOrder();
  }

  /** The order of units: by name, then by the hashed source key. */
  predicate UnitLess(hash: SourceKey -> string, a: Unit, b: Unit) {
    if a.packageName == b.packageName then Less(hash(a.sourceKey), hash(b.sourceKey))
    else Less(a.packageName, b.packageName)
  }

  function UnitOrder(hash: SourceKey -> string): (Unit, Unit) -> bool { (a, b) => UnitLess(hash, a, b) }

  lemma UnitTriple(hash: SourceKey -> string, a: Unit, b: Unit, c: Unit)
    ensures !UnitLess(hash, a, a)
    ensures UnitLess(hash, a, b) && UnitLess(hash, b, c) ==> UnitLess(hash, a, c)
    ensures UnitLess(hash, a, c) ==> UnitLess(hash, a, b) || UnitLess(hash, b, c)
  {
    LessIsWeakOrder();
    LessTotal(a.packageName, b.packageName);
    LessTotal(b.packageName, c.packageName);
  }

  lemma UnitWeak(hash: SourceKey -> string)
    ensures WeakOrder(UnitOrder(hash))
  {
    forall a: Unit, b: Unit, c: Unit
      ensures !UnitOrder(hash)(a, a)
      ensures UnitOrder(hash)(a, b) && UnitOrder(hash)(b, c) ==> UnitOrder(hash)(a, c)
      ensures UnitOrder(hash)(a, c) ==> UnitOrder(hash)(a, b) || UnitOrder(hash)(b, c)
    {
      UnitTriple(hash, a, b, c);
    }
  }

  function UnitKey(u: Unit): BucketKey { u.key }

  /** One unit per bucket, in some order. */
  method MakeUnits(tag: Tag, files: seq<File>, buckets: map<BucketKey, Bucket>) returns (made: seq<Unit>)
    requires Filled(tag, files, buckets)
    ensures forall u :: u in made ==> UnitFits(tag, files, u)
    ensures DistinctBy(UnitKey, made)
    ensures forall k :: k in buckets ==> exists u :: u in made && u.key == k
  {
    PathWeak();
    made := [];
    var keys := buckets.Keys;
    while keys != {}
      invariant keys <= buckets.Keys
      invariant forall k :: k in buckets && k !in keys ==> exists u :: u in made && u.key == k
      invariant forall u :: u in made ==> UnitFits(tag, files, u) && u.key !in keys
      invariant DistinctBy(UnitKey, made)
      decreases keys
    {
      var key :| key in keys;
      SortSorts(PathLess, buckets[key].files);
      var unit := UnitOf(key, buckets[key].name, Sort(PathLess, buckets[key].files));
      assert forall u :: u in made ==> u in made + [unit];
      assert unit in made + [unit];
      made := made + [unit];
      keys := keys - {key};
    }
  }

  /** Ascending by name, units of one name by the text of their hashed source key. */
  predicate InUnitOrder(hash: SourceKey -> string, units: seq<Unit>) {
    forall i, j :: 0 <= i < j < |units| ==>
      if units[i].packageName == units[j].packageName then !Less(hash(units[j].sourceKey), hash(units[i].sourceKey))
      else !Less(units[j].packageName, units[i].packageName)
  }

  /** GroupRecognitionUnits; `hash` gives the text of a hashed source key. */
  method GroupRecognitionUnits(p: Parser, files: seq<File>, hash: SourceKey -> string) returns (units: seq<Unit>)
    ensures forall u :: u in units ==> UnitFits(TagOf(p), files, u)
    ensures DistinctBy(UnitKey, units) && InUnitOrder(hash, units)
    ensures forall f :: f in files ==> exists u :: u in units && u.key == TagOf(p).key(f)
    ensures multiset(AllFiles(units)) == multiset(files)
  {
    var tag := TagOf(p);
    var buckets := FillBuckets(tag, files);
    var made := MakeUnits(tag, files, buckets);
    units := Sort(UnitOrder(hash), made);
    UnitsSorted(made, hash);
    UnitsConserve(tag, files, units);
  }

  lemma UnitsSorted(made: seq<Unit>, hash: SourceKey -> string)
    requires DistinctBy(UnitKey, made)
    ensures var units := Sort(UnitOrder(hash), made);
            DistinctBy(UnitKey, units) && InUnitOrder(hash, units) && forall u :: u in units <==> u in made
  {
    UnitWeak(hash);
    SortSorts(UnitOrder(hash), made);
    SameMembers(Sort(UnitOrder(hash), made), made);
    DistinctByPermutes(UnitKey, made, Sort(UnitOrder(hash), made));
  }

  // ---- Groups by path segments --------------------------------------------------------------

  predicate PlainName(name: string) { GoodName(name) && '\\' !in name }

  ghost predicate PlainNames(names: seq<string>) { forall i :: 0 <= i < |names| ==> PlainName(names[i]) }

  lemma {:induction false} RootedPlain(names: seq<string>)
    requires PlainNames(names)
    ensures '\\' !in Rooted(names)
  {
    if names == [] {
    } else {
      var init, last := names[..|names| - 1], names[|names| - 1];
      RootedPlain(init);
      assert PlainName(last);
    }
  }

  /** The text behind the first slash of a well-formed path splits into the names. */
  lemma SplitBelow(names: seq<string>)
    requires names != [] && PlainNames(names)
    ensures var path := Rooted(names);
            && path != [] && path[0] == '/' && Split(path[1..], '/') == names
            && TrimSlashesLeft(path) == path[1..] && TrimSlashesRight(path[1..]) == path[1..]
  {
    var path := Rooted(names);
    RootedShape(names);
    SplitRooted(names);
    assert Split(path, '/') == [""] + Split(path[1..], '/');
    assert ([""] + names)[1..] == names && ([""] + Split(path[1..], '/'))[1..] == Split(path[1..], '/');
    assert PlainName(names[0]);
    HeadSegment(path[1..]);
    LastIsNoSlash(names);
  }

  lemma HeadSegment(s: string)
    requires Split(s, '/')[0] != ""
    ensures s != [] && s[0] != '/' && TrimSlashesLeft(['/'] + s) == s
  {
    assert (['/'] + s)[1..] == s;
  }

  lemma LastIsNoSlash(names: seq<string>)
    requires names != [] && PlainNames(names)
    ensures Rooted(names)[|Rooted(names)| - 1] != '/'
  {
    var last := names[|names| - 1];
    assert PlainName(last) && last[|last| - 1] in last;
  }

  lemma NormalizePlain(names: seq<string>)
    requires names != [] && PlainNames(names)
    ensures NormalizeFactPath(Rooted(names)) == Rooted(names)
  {
    var path := Rooted(names);
    SplitBelow(names);
    RootedPlain(names);
    TrimGood(names);
    CleanGood(names);
    assert Slashed(path) == path;
    assert path == "/" + path[1..];
  }

  lemma {:induction false} LastSlashAt(above: string, last: string)
    requires '/' !in last
    ensures LastSlash(above + "/" + last) == |above|
  {
    var path := above + "/" + last;
    if last == "" {
      assert path[|path| - 1] == '/';
    } else {
      var n := |last| - 1;
      assert last[n] in last && path[|path| - 1] == last[n];
      assert path[..|path| - 1] == above + "/" + last[..n];
      LastSlashAt(above, last[..n]);
    }
  }

  /** The directory and the base name of a well-formed path. */
  lemma DirBase(init: seq<string>, last: string)
    requires PlainNames(init) && PlainName(last)
    ensures Dir(Rooted(init + [last])) == (if init == [] then "/" else Rooted(init))
    ensures BaseName(Rooted(init + [last])) == last
  {
    var path := Rooted(init + [last]);
    RootedNext(init, last);
    LastSlashAt(Rooted(init), last);
    assert path[..|Rooted(init)|] == Rooted(init) && path[|Rooted(init)| + 1..] == last;
    if init != [] { RootedShape(init); }
  }

  /** No name before position n is a disc folder. */
  predicate DiscFree(names: seq<string>, n: nat)
    requires n <= |names|
  {
    forall i :: 0 <= i < n ==> Lower(names[i]) !in {"bdmv", "video_ts"}
  }

  lemma {:induction false} DiscIndexMeaning(names: seq<string>)
    ensures var i := DiscIndex(names);
            i <= |names| && DiscFree(names, i) && (i < |names| ==> Lower(names[i]) in {"bdmv", "video_ts"})
  {
    if names == [] || IsDiscFolder(names[0]) {
    } else {
      DiscIndexMeaning(names[1..]);
      forall i | 0 <= i < DiscIndex(names) ensures Lower(names[i]) !in {"bdmv", "video_ts"} {
        if i > 0 { assert names[1..][i - 1] == names[i]; }
      }
    }
  }

  lemma DiscIndexIs(names: seq<string>, n: nat)
    requires n <= |names| && DiscFree(names, n) && (n < |names| ==> Lower(names[n]) in {"bdmv", "video_ts"})
    ensures DiscIndex(names) == n
  {
    DiscIndexMeaning(names);
  }

  lemma OuterOfNames(names: seq<string>)
    requires names != [] && PlainNames(names)
    ensures var i := DiscIndex(names);
            DiscOuter(Rooted(names)) == if 0 < i < |names| then Some(Rooted(names[..i])) else None
  {
    SplitBelow(names);
  }

  lemma PlainParts(a: seq<string>, b: seq<string>)
    requires PlainNames(a + b)
    ensures PlainNames(a) && PlainNames(b)
  {
    forall i | 0 <= i < |a| ensures PlainName(a[i]) { assert a[i] == (a + b)[i]; }
    forall i | 0 <= i < |b| ensures PlainName(b[i]) { assert b[i] == (a + b)[|a| + i]; }
  }

  lemma PlainWhole(a: seq<string>, b: seq<string>)
    requires PlainNames(a) && PlainNames(b)
    ensures PlainNames(a + b)
  {
    forall i | 0 <= i < |a + b| ensures PlainName((a + b)[i]) {}
  }

  /** The group in terms of the directory and the names around it. */
  lemma GroupOfDisc(p: Parser, relative: string, outer: string)
    requires DiscOuter(relative) == Some(outer)
    ensures Group(p, relative) == (Disc(outer), BaseName(outer))
  {
  }

  lemma GroupOfMovie(p: Parser, relative: string, directory: string)
    requires DiscOuter(relative).None? && p.parse(relative).mediaType.Movie? && Dir(relative) == directory
    ensures Group(p, relative).0 == if directory == "/" then SingleFile(relative) else MovieDir(directory)
    ensures directory != "/" ==> Group(p, relative).1 == BaseName(directory)
  {
  }

  lemma GroupOfEpisode(p: Parser, relative: string, directory: string, above: string)
    requires DiscOuter(relative).None? && p.parse(relative).mediaType.Tv?
    requires Dir(relative) == directory && Dir(directory) == above && above != "/"
    requires p.seasonFolder(BaseName(directory))
             || p.releaseDirectory(BaseName(directory), BaseName(above), p.parse(relative))
    ensures Group(p, relative) == (TvDir(above), BaseName(above))
  {
  }

  lemma OuterAt(outer: seq<string>, disc: string, below: seq<string>)
    requires outer != [] && PlainNames(outer + [disc] + below)
    requires DiscFree(outer, |outer|) && Lower(disc) in {"bdmv", "video_ts"}
    ensures DiscOuter(Rooted(outer + [disc] + below)) == Some(Rooted(outer))
  {
    var names, n := outer + [disc] + below, |outer|;
    assert names[..n] == outer && names[n] == disc;
    assert forall i :: 0 <= i < n ==> names[i] == outer[i];
    DiscIndexIs(names, n);
    OuterOfNames(names);
  }

  lemma GroupOfShow(p: Parser, relative: string, directory: string)
    requires DiscOuter(relative).None? && p.parse(relative).mediaType.Tv? && Dir(relative) == directory != "/"
    requires !p.seasonFolder(BaseName(directory))
    requires !p.releaseDirectory(BaseName(directory), BaseName(Dir(directory)), p.parse(relative))
    ensures Group(p, relative) == (TvDir(directory), BaseName(directory))
  {
  }

  lemma GroupAtRoot(p: Parser, relative: string)
    requires DiscOuter(relative).None? && p.parse(relative).mediaType.Tv? && Dir(relative) == "/"
    ensures var title := TrimSpace(p.parse(relative).seriesTitle);
            var name := if title == "" then Stem(BaseName(relative)) else title;
            Group(p, relative) == (TvRoot(Lower(name)), name)
  {
  }

  /** Everything below a disc folder is one unit, named after the directory around it. */
  lemma DiscGroup(p: Parser, above: seq<string>, name: string, disc: string, below: seq<string>)
    requires PlainNames(above + [name] + [disc] + below)
    requires DiscFree(above + [name], |above| + 1) && Lower(disc) in {"bdmv", "video_ts"}
    ensures Group(p, Rooted(above + [name] + [disc] + below)) == (Disc(Rooted(above + [name])), name)
  {
    var outer := above + [name];
    OuterAt(outer, disc, below);
    assert outer + [disc] + below == outer + ([disc] + below);
    PlainParts(outer, [disc] + below);
    PlainParts(above, [name]);
    DirBase(above, [name][0]);
    GroupOfDisc(p, Rooted(outer + [disc] + below), Rooted(outer));
  }

  lemma NoOuter(names: seq<string>)
    requires names != [] && PlainNames(names) && DiscFree(names, |names|)
    ensures DiscOuter(Rooted(names)).None?
  {
    DiscIndexIs(names, |names|);
    OuterOfNames(names);
  }

  /** A film at the root is a unit of its own. */
  lemma RootMovieGroup(p: Parser, name: string)
    requires PlainName(name) && DiscFree([name], 1) && p.parse(Rooted([name])).mediaType.Movie?
    ensures Group(p, Rooted([name])).0 == SingleFile(Rooted([name]))
  {
    NoOuter([name]);
    DirBase([], name);
    assert [] + [name] == [name];
    GroupOfMovie(p, Rooted([name]), "/");
  }

  lemma RootedIsNotRoot(names: seq<string>)
    requires names != [] && PlainNames(names)
    ensures Rooted(names) != "/"
  {
    SplitBelow(names);
    LastIsNoSlash(names);
  }

  /** A film in a directory lies in the unit of the directory. */
  lemma MovieGroup(p: Parser, above: seq<string>, directory: string, name: string)
    requires PlainNames(above + [directory]) && PlainName(name)
    requires DiscFree(above + [directory] + [name], |above| + 2)
    requires p.parse(Rooted(above + [directory] + [name])).mediaType.Movie?
    ensures Group(p, Rooted(above + [directory] + [name])) == (MovieDir(Rooted(above + [directory])), directory)
  {
    var names := above + [directory];
    PlainParts(above, [directory]);
    PlainWhole(names, [name]);
    NoOuter(names + [name]);
    DirBase(names, name);
    DirBase(above, [directory][0]);
    RootedIsNotRoot(names);
    GroupOfMovie(p, Rooted(names + [name]), Rooted(names));
  }

  /** An episode in a season folder or a season release lies in the unit of the directory of the show. */
  lemma EpisodeGroup(p: Parser, above: seq<string>, show: string, season: string, name: string)
    requires PlainNames(above + [show]) && PlainName(season) && PlainName(name)
    requires p.seasonFolder(season)
             || p.releaseDirectory(season, show, p.parse(Rooted(above + [show] + [season] + [name])))
    requires DiscFree(above + [show] + [season] + [name], |above| + 3)
    requires p.parse(Rooted(above + [show] + [season] + [name])).mediaType.Tv?
    ensures Group(p, Rooted(above + [show] + [season] + [name])) == (TvDir(Rooted(above + [show])), show)
  {
    var names := above + [show];
    PlainParts(above, [show]);
    PlainWhole(names, [season]);
    PlainWhole(names + [season], [name]);
    NoOuter(names + [season] + [name]);
    DirBase(names + [season], name);
    DirBase(names, season);
    DirBase(above, [show][0]);
    RootedIsNotRoot(names);
    GroupOfEpisode(p, Rooted(names + [season] + [name]), Rooted(names + [season]), Rooted(names));
  }

  /** An episode in a directory that is no season of another one lies in the unit of that directory. */
  lemma ShowGroup(p: Parser, above: seq<string>, work: string, show: string, name: string)
    requires PlainNames(above + [work] + [show]) && PlainName(name) && !p.seasonFolder(show)
    requires !p.releaseDirectory(show, work, p.parse(Rooted(above + [work] + [show] + [name])))
    requires DiscFree(above + [work] + [show] + [name], |above| + 3)
    requires p.parse(Rooted(above + [work] + [show] + [name])).mediaType.Tv?
    ensures Group(p, Rooted(above + [work] + [show] + [name])) == (TvDir(Rooted(above + [work] + [show])), show)
  {
    var outer, names := above + [work], above + [work] + [show];
    PlainParts(outer, [show]);
    PlainParts(above, [work]);
    PlainWhole(names, [name]);
    NoOuter(names + [name]);
    DirBase(names, name);
    DirBase(outer, [show][0]);
    DirBase(above, [work][0]);
    RootedIsNotRoot(names);
    GroupOfShow(p, Rooted(names + [name]), Rooted(names));
  }

  /** The same for a directory directly below the root. */
  lemma TopShowGroup(p: Parser, show: string, name: string)
    requires PlainName(show) && PlainName(name) && !p.seasonFolder(show)
    requires !p.releaseDirectory(show, "/", p.parse(Rooted([show] + [name])))
    requires DiscFree([show] + [name], 2) && p.parse(Rooted([show] + [name])).mediaType.Tv?
    ensures Group(p, Rooted([show] + [name])) == (TvDir(Rooted([show])), show)
  {
    TopNames(show, name);
    GroupOfShow(p, Rooted([show] + [name]), Rooted([show]));
  }

  lemma TopNames(directory: string, name: string)
    requires PlainName(directory) && PlainName(name) && DiscFree([directory] + [name], 2)
    ensures DiscOuter(Rooted([directory] + [name])).None? && Rooted([directory]) != "/"
    ensures Dir(Rooted([directory] + [name])) == Rooted([directory]) && Dir(Rooted([directory])) == "/"
    ensures BaseName(Rooted([directory] + [name])) == name && BaseName(Rooted([directory])) == directory
  {
    PlainWhole([directory], [name]);
    NoOuter([directory] + [name]);
    DirBase([directory], name);
    DirBase([], directory);
    assert [] + [directory] == [directory];
    RootedIsNotRoot([directory]);
  }

  lemma GroupOfRootSeason(p: Parser, relative: string, directory: string)
    requires DiscOuter(relative).None? && p.parse(relative).mediaType.Tv?
    requires Dir(relative) == directory && Dir(directory) == "/"
    requires p.seasonFolder(BaseName(directory)) || p.releaseDirectory(BaseName(directory), "/", p.parse(relative))
    ensures var title := TrimSpace(p.parse(relative).seriesTitle);
            var name := if title == "" then Stem(BaseName(relative)) else title;
            Group(p, relative) == (TvRoot(Lower(name)), name)
  {
  }

  /** A season folder directly below the root has no show: its episodes go by their title, like those at the root. */
  lemma RootSeasonGroup(p: Parser, season: string, name: string, stem: string, ext: string)
    requires PlainName(season) && PlainName(name) && DiscFree([season] + [name], 2) && NameSplits(name, stem, ext)
    requires p.seasonFolder(season) || p.releaseDirectory(season, "/", p.parse(Rooted([season] + [name])))
    requires p.parse(Rooted([season] + [name])).mediaType.Tv?
    ensures var title := TrimSpace(p.parse(Rooted([season] + [name])).seriesTitle);
            var shown := if title == "" then stem else title;
            Group(p, Rooted([season] + [name])) == (TvRoot(Lower(shown)), shown)
  {
    TopNames(season, name);
    ExtIsSplit(name, stem, ext);
    assert name[..|name| - |ext|] == stem;
    GroupOfRootSeason(p, Rooted([season] + [name]), Rooted([season]));
  }

  /** An episode at the root goes by its series title without regard to case, or by its own name when it has none. */
  lemma RootEpisodeGroup(p: Parser, name: string, stem: string, ext: string)
    requires PlainName(name) && DiscFree([name], 1) && p.parse(Rooted([name])).mediaType.Tv?
    requires NameSplits(name, stem, ext)
    ensures var title := TrimSpace(p.parse(Rooted([name])).seriesTitle);
            var shown := if title == "" then stem else title;
            Group(p, Rooted([name])) == (TvRoot(Lower(shown)), shown)
  {
    NoOuter([name]);
    DirBase([], name);
    assert [] + [name] == [name];
    ExtIsSplit(name, stem, ext);
    assert name[..|name| - |ext|] == stem;
    GroupAtRoot(p, Rooted([name]));
  }

  /** Two files with one key lie in the same unit of every grouping, as often as in the input. */
  lemma ShareUnit(p: Parser, files: seq<File>, u: Unit, a: File, b: File)
    requires UnitFits(TagOf(p), files, u) && a in u.files && b in files && KeyOf(p, a) == KeyOf(p, b)
    ensures b in u.files
  {
    UnitsPartition(TagOf(p), files, u, a);
    UnitsPartition(TagOf(p), files, u, b);
    assert a in multiset(u.files) && b in multiset(files);
  }

  /** The file is an episode in a season folder of the show. */
  ghost predicate InSeason(p: Parser, above: seq<string>, show: string, file: File, season: string, name: string) {
    && PlainNames(above + [show]) && PlainName(season) && PlainName(name) && p.seasonFolder(season)
    && file.relativePath == Rooted(above + [show] + [season] + [name])
    && DiscFree(above + [show] + [season] + [name], |above| + 3) && p.parse(file.relativePath).mediaType.Tv?
  }

  lemma SeasonKey(p: Parser, above: seq<string>, show: string, file: File, season: string, name: string)
    requires InSeason(p, above, show, file, season, name)
    ensures KeyOf(p, file) == BucketKey(Tv, TvDir(Rooted(above + [show])))
    ensures NameOf(p, file) == show
  {
    PlainWhole(above + [show], [season]);
    PlainWhole(above + [show] + [season], [name]);
    NormalizePlain(above + [show] + [season] + [name]);
    EpisodeGroup(p, above, show, season, name);
  }

  lemma UnitName(p: Parser, files: seq<File>, u: Unit, f: File)
    requires UnitFits(TagOf(p), files, u) && f in u.files && u.key.mediaType.Tv? && u.key.group.TvDir?
    ensures KeyOf(p, f) == u.key && u.packageName == NameOf(p, f)
  {
    UnitsPartition(TagOf(p), files, u, f);
    assert f in multiset(u.files);
    TvDirectoryIsStable(p, files, files, u, u);
    TvDirName(p, f, u.key.group.directory);
  }

  lemma UnitKeyOf(p: Parser, files: seq<File>, u: Unit, f: File)
    requires UnitFits(TagOf(p), files, u) && f in u.files
    ensures u.key == KeyOf(p, f)
  {
    UnitsPartition(TagOf(p), files, u, f);
    assert f in multiset(u.files);
  }

  /** Episodes of two season folders of one show lie in one unit, which is named after the directory of the show. */
  lemma SeasonsShareUnit(p: Parser, files: seq<File>, u: Unit, above: seq<string>, show: string, a: File, b: File,
                         seasons: (string, string), names: (string, string))
    requires UnitFits(TagOf(p), files, u) && a in u.files && b in files
    requires InSeason(p, above, show, a, seasons.0, names.0) && InSeason(p, above, show, b, seasons.1, names.1)
    ensures b in u.files && u.key == BucketKey(Tv, TvDir(Rooted(above + [show]))) && u.packageName == show
  {
    SeasonKey(p, above, show, a, seasons.0, names.0);
    SeasonKey(p, above, show, b, seasons.1, names.1);
    UnitKeyOf(p, files, u, a);
    UnitName(p, files, u, a);
    ShareUnit(p, files, u, a, b);
  }

  /**
   Fingerprints agree exactly when media type and name do, and for single files also path, sizes and times of the files.
   */
  lemma FingerprintIff(k: BucketKey, l: BucketKey, n: string, m: string, a: seq<File>, b: seq<File>)
    ensures FingerprintOf(k, n, a) == FingerprintOf(l, m, b) <==>
            && k.mediaType == l.mediaType && TrimSpace(n) == TrimSpace(m)
            && (k.group.SingleFile? || l.group.SingleFile? ==>
                  && k.group == l.group && |a| == |b|
                  && forall i :: 0 <= i < |a| ==> FactOf(a[i]) == FactOf(b[i]))
  {
    if |a| == |b| && forall i :: 0 <= i < |a| ==> FactOf(a[i]) == FactOf(b[i]) {
      assert Facts(a) == Facts(b);
    } else if |a| == |b| {
      var i :| 0 <= i < |a| && FactOf(a[i]) != FactOf(b[i]);
      assert Facts(a)[i] != Facts(b)[i];
    } else {
      assert |Facts(a)| != |Facts(b)|;
    }
  }

  /** A file at the root that is replaced in place changes the fingerprint of its unit, one in a directory does not. */
  lemma ReplacementShows(tag: Tag, before: seq<File>, after: seq<File>, u: Unit, v: Unit, i: nat)
    requires UnitFits(tag, before, u) && UnitFits(tag, after, v) && u.key == v.key && i < |u.files| == |v.files|
    requires u.files[i].size != v.files[i].size || u.files[i].modifiedAt != v.files[i].modifiedAt
    requires TrimSpace(u.packageName) == TrimSpace(v.packageName)
    ensures u.fingerprint != v.fingerprint <==> u.key.group.SingleFile?
  {
    assert Facts(u.files)[i] == FactOf(u.files[i]) && Facts(v.files)[i] == FactOf(v.files[i]);
  }

  // ---- A file that moves the anchor ---------------------------------------------------------

  /** A parser that takes everything for a movie. */
  const MOVIES: Parser := Parser(_ => Parsed(Movie, ""), _ => false, (_, _, _) => false)

  lemma LetterIsGood(c: char)
    requires 'a' <= c <= 'z'
    ensures GoodName([c])
  {
    assert Slashed([c]) == [c];
    SplitWithout([c], '/');
  }

  function MoviePath(c: char): string { "/m/" + [c] }

  lemma MovieFactPath(c: char)
    requires 'a' <= c <= 'z'
    ensures NormalizeFactPath(MoviePath(c)) == MoviePath(c)
  {
    var path, names := MoviePath(c), ["m", [c]];
    LetterIsGood('m');
    LetterIsGood(c);
    assert names[..1] == ["m"] && ["m"][..0] == [];
    assert Rooted(["m"]) == "" + "/" + "m" && Rooted(names) == Rooted(["m"]) + "/" + [c] == path;
    TrimGood(names);
    CleanGood(names);
    assert Slashed(path) == path;
    assert TrimSlashesLeft(path) == path[1..];
    assert "/" + path[1..] == path;
  }

  lemma MovieKey(c: char)
    requires 'a' <= c <= 'z'
    ensures Group(MOVIES, MoviePath(c)).0 == MovieDir("/m")
  {
    var path := MoviePath(c);
    var inner := "m/" + [c];
    assert path[1..] == inner && TrimSlashesLeft(path) == inner && TrimSlashesRight(inner) == inner;
    assert inner == "m" + ['/'] + [c];
    SplitJoin("m", [c], '/');
    SplitWithout("m", '/');
    SplitWithout([c], '/');
    NoDisc("m", [c]);
    assert path[..3] == "/m/" && LastSlash("/m/") == 2 && LastSlash(path) == 2;
    assert path[..2] == "/m";
  }

  lemma NoDisc(a: string, b: string)
    requires |a| == 1 && |b| == 1
    ensures DiscIndex([a, b]) == 2
  {
    assert [a, b][1..] == [b] && [b][1..] == [];
    assert !IsDiscFolder(a) && !IsDiscFolder(b);
    assert DiscIndex([b]) == 1 + DiscIndex([b][1..]);
  }

  function Stored(c: char, id: string): File { File(MoviePath(c), id, true, 0, 0) }

  const FIRST := Stored('b', "2")
  const SECOND := Stored('a', "1")

  /** The unit that grouping makes of files that all share a key. */
  lemma WholeUnit(tag: Tag, files: seq<File>) returns (u: Unit)
    requires files != [] && forall i :: 0 <= i < |files| ==> tag.key(files[i]) == tag.key(files[0])
    ensures UnitFits(tag, files, u) && u.key == tag.key(files[0]) && multiset(u.files) == multiset(files)
  {
    var key := tag.key(files[0]);
    AllMembers(tag, files, key);
    PathWeak();
    SortSorts(PathLess, files);
    u := UnitOf(key, tag.name(files[0]), Sort(PathLess, files));
  }

  lemma {:induction false} AllMembers(tag: Tag, files: seq<File>, key: BucketKey)
    requires forall i :: 0 <= i < |files| ==> tag.key(files[i]) == key
    ensures Members(tag, files, key) == files
  {
    if files == [] {
    } else {
      AllMembers(tag, files[..|files| - 1], key);
      assert files == files[..|files| - 1] + [files[|files| - 1]];
    }
  }

  lemma SameMovieKey()
    ensures TagOf(MOVIES).key(FIRST) == TagOf(MOVIES).key(SECOND) == BucketKey(Movie, MovieDir("/m"))
  {
    MovieFactPath('a');
    MovieFactPath('b');
    MovieKey('a');
    MovieKey('b');
  }

  /** Two stable files of one group that is not a TV group: the second moves the anchor when its identity is smaller. */
  lemma AnchorMoves(tag: Tag, first: File, second: File, key: BucketKey) returns (u: Unit, v: Unit)
    requires tag.key(first) == key && tag.key(second) == key && !IsTvGroup(key.group)
    requires Stable(first) && Stable(second) && Less(second.providerId, first.providerId)
    ensures UnitFits(tag, [first], u) && UnitFits(tag, [first, second], v)
    ensures u.key == v.key == key && u.sourceKey != v.sourceKey
  {
    u := WholeUnit(tag, [first]);
    v := WholeUnit(tag, [first, second]);
    SourceKeyPermutes(key.group, [first], u.files);
    assert [first, second] == [first] + [second];
    JoiningKeepsSourceKey(tag, [first], [first, second], second, u, v);
  }

  /** A film that joins a directory with a smaller provider identity changes the identity of the work. */
  lemma JoiningMovesAnchor() returns (u: Unit, v: Unit)
    ensures UnitFits(TagOf(MOVIES), [FIRST], u) && UnitFits(TagOf(MOVIES), [FIRST, SECOND], v)
    ensures u.key == v.key == BucketKey(Movie, MovieDir("/m")) && u.sourceKey != v.sourceKey
  {
    SameMovieKey();
    StableIds();
    u, v := AnchorMoves(TagOf(MOVIES), FIRST, SECOND, BucketKey(Movie, MovieDir("/m")));
  }

  lemma StableIds()
    ensures Stable(FIRST) && Stable(SECOND) && Less(SECOND.providerId, FIRST.providerId)
  {
    assert TrimSpace("1") == "1" && TrimSpace("2") == "2";
  }
}
