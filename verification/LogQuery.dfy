/**
 Value-anchored pagination over the runtime log. A cursor names the last delivered entry by time and
 identity, so pages can be read from a log that gains and loses entries in between.
 */
module LogQuery {
  import opened Common
  import opened Text
  import opened Sorting

  /**
   `fields` holds the remaining fields as they print, `truncated` the boolean field event_truncated, `digest` the hash
   of the encoded entry.
   */
  datatype LogEntry = LogEntry(
    timestamp: int, level: string, message: string, moduleName: string, component: string, operation: string,
    pluginId: string, fields: map<string, string>, eventVersion: int, truncated: bool, digest: string)

  datatype Filter = Filter(
    from: int, to: int, levels: seq<string>, modules: seq<string>, components: seq<string>, operations: seq<string>,
    pluginIds: seq<string>, keyword: string, correlations: map<string, string>, businessOnly: bool, ascending: bool)

  /** entryIdentity */
  function Identity(e: LogEntry): string {
    if "event_id" in e.fields && e.fields["event_id"] != "" then e.fields["event_id"] else e.digest
  }

  predicate ContainsOrEmpty(values: seq<string>, value: string) { values == [] || value in values }

  function Printed(e: LogEntry, key: string): string { if key in e.fields then e.fields[key] else "<nil>" }

  /** matches */
  predicate Matches(e: LogEntry, f: Filter) {
    && f.from <= e.timestamp <= f.to
    && ContainsOrEmpty(f.levels, e.level) && ContainsOrEmpty(f.modules, e.moduleName)
    && ContainsOrEmpty(f.components, e.component) && ContainsOrEmpty(f.operations, e.operation)
    && ContainsOrEmpty(f.pluginIds, e.pluginId)
    && (f.keyword != "" ==> Contains(Lower(e.message), Lower(f.keyword)))
    && (f.businessOnly ==>
          e.eventVersion == 1 && e.pluginId == "" && "event_id" in e.fields && "event_code" in e.fields)
    && (forall k :: k in f.correlations ==> f.correlations[k] == "" || Printed(e, k) == f.correlations[k])
  }

  /** A non-empty list asks for one of its values. */
  predicate Asks(values: seq<string>, value: string) {
    |values| > 0 ==> exists i :: 0 <= i < |values| && values[i] == value
  }

  /** The field prints as wanted; a missing field prints as "<nil>". */
  predicate Prints(e: LogEntry, key: string, want: string) {
    (key in e.fields && e.fields[key] == want) || (key !in e.fields && want == "<nil>")
  }

  /** What each field of the filter demands of the entry. */
  predicate Satisfies(e: LogEntry, f: Filter) {
    && f.from <= e.timestamp && e.timestamp <= f.to
    && Asks(f.levels, e.level) && Asks(f.modules, e.moduleName) && Asks(f.components, e.component)
    && Asks(f.operations, e.operation) && Asks(f.pluginIds, e.pluginId)
    && (f.keyword == "" || exists j :: 0 <= j <= |e.message| && OccursFolded(e.message, f.keyword, j))
    && (forall k :: k in f.correlations && f.correlations[k] != "" ==> Prints(e, k, f.correlations[k]))
    && (f.businessOnly ==>
          e.eventVersion == 1 && e.pluginId == "" && "event_id" in e.fields && "event_code" in e.fields)
  }

  /** An entry matches exactly when it meets every demand of the filter. */
  lemma MatchMeaning(e: LogEntry, f: Filter)
    ensures Matches(e, f) <==> Satisfies(e, f)
  {
    ContainsFolded(e.message, f.keyword);
    if f.keyword == "" { assert OccursFolded(e.message, f.keyword, 0); }
  }

  // ---- The order of a page ------------------------------------------------------------------

  datatype Anchor = Anchor(at: int, key: string)

  function KeyOf(e: LogEntry): Anchor { Anchor(e.timestamp, Identity(e)) }

  predicate KeyLess(a: Anchor, b: Anchor) { a.at < b.at || (a.at == b.at && Less(a.key, b.key)) }

  /** The comparator handed to the stable sort. */
  predicate Comparator(ascending: bool, a: LogEntry, b: LogEntry) {
    if ascending then KeyLess(KeyOf(a), KeyOf(b)) else !KeyLess(KeyOf(a), KeyOf(b)) && Identity(a) != Identity(b)
  }

  /** Key a comes before key b in the query direction. */
  predicate Precedes(ascending: bool, a: Anchor, b: Anchor) {
    if ascending then KeyLess(a, b) else KeyLess(b, a)
  }

  ghost predicate DistinctIdentities(log: seq<LogEntry>) { DistinctBy(Identity, log) }

  /** The entries follow one another strictly in the query direction. */
  ghost predicate Chain(ascending: bool, s: seq<LogEntry>) {
    forall i, j :: 0 <= i < j < |s| ==> Precedes(ascending, KeyOf(s[i]), KeyOf(s[j]))
  }

  lemma KeyLessTotal(a: Anchor, b: Anchor)
    ensures a == b || KeyLess(a, b) || KeyLess(b, a)
    ensures !KeyLess(a, a) && !(KeyLess(a, b) && KeyLess(b, a))
  {
    LessTotal(a.key, b.key);
    LessIrreflexive(a.key);
    if Less(a.key, b.key) && Less(b.key, a.key) { LessTransitive(a.key, b.key, a.key); }
  }

  lemma PrecedesTransitive(ascending: bool, a: Anchor, b: Anchor, c: Anchor)
    requires Precedes(ascending, a, b) && Precedes(ascending, b, c)
    ensures Precedes(ascending, a, c)
  {
    var lo, hi := if ascending then a else c, if ascending then c else a;
    if lo.at == b.at == hi.at { LessTransitive(lo.key, b.key, hi.key); }
  }

  lemma ComparatorPrecedes(ascending: bool, a: LogEntry, b: LogEntry)
    requires Identity(a) != Identity(b)
    ensures Comparator(ascending, a, b) <==> Precedes(ascending, KeyOf(a), KeyOf(b))
  {
    KeyLessTotal(KeyOf(a), KeyOf(b));
  }

  /**
   The descending comparator orders any two different entries of a log exactly when identities are distinct:
   two entries that share one compare as equal in both directions, whatever their times.
   */
  lemma DescendingNeedsIdentities(log: seq<LogEntry>)
    requires Distinct(log)
    ensures Separates((a, b) => Comparator(false, a, b), log) <==> DistinctIdentities(log)
  {
    var less := (a, b) => Comparator(false, a, b);
    if DistinctIdentities(log) {
      forall x, y | x in log && y in log && x != y ensures less(x, y) || less(y, x) {
        var i :| 0 <= i < |log| && log[i] == x;
        var j :| 0 <= j < |log| && log[j] == y;
        KeyLessTotal(KeyOf(x), KeyOf(y));
      }
    } else {
      var i, j :| 0 <= i < j < |log| && Identity(log[i]) == Identity(log[j]);
      assert !less(log[i], log[j]) && !less(log[j], log[i]);
    }
  }

  // ---- One page -----------------------------------------------------------------------------

  function Matching(f: Filter, log: seq<LogEntry>): seq<LogEntry> {
    if log == [] then []
    else Matching(f, log[..|log| - 1]) + if Matches(log[|log| - 1], f) then [log[|log| - 1]] else []
  }

  function Sorted(f: Filter, log: seq<LogEntry>): seq<LogEntry> {
    Sort((a, b) => Comparator(f.ascending, a, b), Matching(f, log))
  }

  /** The entry is the anchor, or lies on the delivered side of it. */
  predicate Skips(f: Filter, anchor: Option<Anchor>, e: LogEntry) {
    && anchor.Some?
    && (|| KeyOf(e) == anchor.value
        || (if f.ascending then KeyLess(KeyOf(e), anchor.value) else !KeyLess(KeyOf(e), anchor.value)))
  }

  function Remaining(f: Filter, anchor: Option<Anchor>, sorted: seq<LogEntry>): seq<LogEntry> {
    if sorted == [] then []
    else (if Skips(f, anchor, sorted[0]) then [] else [sorted[0]]) + Remaining(f, anchor, sorted[1..])
  }

  datatype Page = Page(list: seq<LogEntry>, next: Option<LogEntry>)

  /** At most `limit` entries, and the last of them as the cursor when more remain. */
  function Cut(rest: seq<LogEntry>, limit: nat): Page
    requires limit > 0
  {
    if |rest| <= limit then Page(rest, None) else Page(rest[..limit], Some(rest[limit - 1]))
  }

  function PageOf(f: Filter, anchor: Option<Anchor>, limit: nat, log: seq<LogEntry>): Page
    requires limit > 0
  {
    Cut(Remaining(f, anchor, Sorted(f, log)), limit)
  }

  lemma {:induction false} SortAgrees<T(!new)>(p: (T, T) -> bool, q: (T, T) -> bool, s: seq<T>)
    requires forall x, y :: x in s && y in s ==> p(x, y) == q(x, y)
    ensures Sort(p, s) == Sort(q, s)
    ensures multiset(Sort(p, s)) == multiset(s)
  {
    if s == [] {
    } else {
      var init, last := s[..|s| - 1], s[|s| - 1];
      SortAgrees(p, q, init);
      SameMembers(Sort(p, init), init);
      InsertAgrees(p, q, last, Sort(p, init));
      InsertMembers(p, last, Sort(p, init));
      assert s == init + [last];
    }
  }

  lemma {:induction false} InsertAgrees<T(!new)>(p: (T, T) -> bool, q: (T, T) -> bool, x: T, s: seq<T>)
    requires forall y :: y in s ==> p(x, y) == q(x, y)
    ensures Insert(p, x, s) == Insert(q, x, s)
  {
    if s == [] || p(x, s[0]) {
    } else {
      InsertAgrees(p, q, x, s[1..]);
    }
  }

  lemma {:induction false} MatchingMembers(f: Filter, log: seq<LogEntry>, e: LogEntry)
    ensures e in Matching(f, log) <==> e in log && Matches(e, f)
  {
    if log == [] {
    } else {
      var init, last := log[..|log| - 1], log[|log| - 1];
      MatchingMembers(f, init, e);
      assert log == init + [last];
      assert e in log <==> e in init || e == last;
    }
  }

  lemma {:induction false} MatchingDistinct(f: Filter, log: seq<LogEntry>)
    requires DistinctIdentities(log)
    ensures DistinctIdentities(Matching(f, log))
  {
    if log == [] {
    } else {
      var init, last := log[..|log| - 1], log[|log| - 1];
      MatchingDistinct(f, init);
      forall i | 0 <= i < |Matching(f, init)| ensures Identity(Matching(f, init)[i]) != Identity(last) {
        MatchingMembers(f, init, Matching(f, init)[i]);
        var k :| 0 <= k < |init| && init[k] == Matching(f, init)[i];
        assert log[k] == init[k];
      }
    }
  }

  lemma PrecedesWeak(ascending: bool)
    ensures WeakOrder((a: LogEntry, b: LogEntry) => Precedes(ascending, KeyOf(a), KeyOf(b)))
  {
    forall x: LogEntry ensures !Precedes(ascending, KeyOf(x), KeyOf(x)) { KeyLessTotal(KeyOf(x), KeyOf(x)); }
    forall x: LogEntry, y: LogEntry, z: LogEntry
      ensures Precedes(ascending, KeyOf(x), KeyOf(y)) && Precedes(ascending, KeyOf(y), KeyOf(z)) ==>
                Precedes(ascending, KeyOf(x), KeyOf(z))
      ensures Precedes(ascending, KeyOf(x), KeyOf(z)) ==>
                Precedes(ascending, KeyOf(x), KeyOf(y)) || Precedes(ascending, KeyOf(y), KeyOf(z))
    {
      WeakTriple(ascending, KeyOf(x), KeyOf(y), KeyOf(z));
    }
  }

  lemma WeakTriple(ascending: bool, x: Anchor, y: Anchor, z: Anchor)
    ensures Precedes(ascending, x, y) && Precedes(ascending, y, z) ==> Precedes(ascending, x, z)
    ensures Precedes(ascending, x, z) ==> Precedes(ascending, x, y) || Precedes(ascending, y, z)
  {
    KeyLessTotal(x, y);
    if Precedes(ascending, x, y) && Precedes(ascending, y, z) { PrecedesTransitive(ascending, x, y, z); }
    if Precedes(ascending, y, x) && Precedes(ascending, x, z) { PrecedesTransitive(ascending, y, x, z); }
  }

  lemma ComparatorAgrees(ascending: bool, s: seq<LogEntry>)
    requires DistinctIdentities(s)
    ensures forall x, y :: x in s && y in s ==>
              (Comparator(ascending, x, y) <==> Precedes(ascending, KeyOf(x), KeyOf(y)))
  {
    forall x, y | x in s && y in s ensures Comparator(ascending, x, y) <==> Precedes(ascending, KeyOf(x), KeyOf(y)) {
      var i :| 0 <= i < |s| && s[i] == x;
      var j :| 0 <= j < |s| && s[j] == y;
      if i == j { KeyLessTotal(KeyOf(x), KeyOf(x)); } else { ComparatorPrecedes(ascending, x, y); }
    }
  }

  lemma AscendingChain(ascending: bool, s: seq<LogEntry>)
    requires Ascending((a: LogEntry, b: LogEntry) => Precedes(ascending, KeyOf(a), KeyOf(b)), s)
    requires DistinctIdentities(s)
    ensures Chain(ascending, s)
  {
    forall i, j | 0 <= i < j < |s| ensures Precedes(ascending, KeyOf(s[i]), KeyOf(s[j])) {
      KeyLessTotal(KeyOf(s[i]), KeyOf(s[j]));
    }
  }

  /** With distinct identities the stable sort yields exactly the matching entries, strictly in order. */
  lemma SortedIsChain(f: Filter, log: seq<LogEntry>)
    requires DistinctIdentities(log)
    ensures Chain(f.ascending, Sorted(f, log))
    ensures forall e :: e in Sorted(f, log) <==> e in log && Matches(e, f)
  {
    var p, q := (a, b) => Comparator(f.ascending, a, b), (a, b) => Precedes(f.ascending, KeyOf(a), KeyOf(b));
    var matched := Matching(f, log);
    MatchingDistinct(f, log);
    ComparatorAgrees(f.ascending, matched);
    SortAgrees(p, q, matched);
    PrecedesWeak(f.ascending);
    SortSorts(q, matched);
    DistinctByPermutes(Identity, matched, Sorted(f, log));
    AscendingChain(f.ascending, Sorted(f, log));
    SameMembers(Sorted(f, log), matched);
    forall e ensures e in matched <==> e in log && Matches(e, f) { MatchingMembers(f, log, e); }
  }

  // ---- When a descending query is ordered by time -------------------------------------------

  predicate TimeDescending(s: seq<LogEntry>) {
    forall i, j :: 0 <= i < j < |s| ==> s[i].timestamp >= s[j].timestamp
  }

  predicate SameTime(x: LogEntry, y: LogEntry) { Identity(x) == Identity(y) ==> x.timestamp == y.timestamp }

  /** Entries that share an identity share their time. */
  ghost predicate TimedIdentities(s: seq<LogEntry>) { forall x, y :: x in s && y in s ==> SameTime(x, y) }

  lemma ComparatorTimed(s: seq<LogEntry>)
    requires TimedIdentities(s)
    ensures forall x, y :: x in s && y in s ==> (Comparator(false, x, y) <==> Precedes(false, KeyOf(x), KeyOf(y)))
  {
    forall x, y | x in s && y in s ensures Comparator(false, x, y) <==> Precedes(false, KeyOf(x), KeyOf(y)) {
      assert SameTime(x, y);
      if Identity(x) == Identity(y) { KeyLessTotal(KeyOf(x), KeyOf(y)); } else { ComparatorPrecedes(false, x, y); }
    }
  }

  lemma TimedSorts(s: seq<LogEntry>)
    requires TimedIdentities(s)
    ensures TimeDescending(Sort((a, b) => Comparator(false, a, b), s))
  {
    var p, q := (a, b) => Comparator(false, a, b), (a, b) => Precedes(false, KeyOf(a), KeyOf(b));
    ComparatorTimed(s);
    SortAgrees(p, q, s);
    PrecedesWeak(false);
    SortSorts(q, s);
    var sorted := Sort(p, s);
    forall i, j | 0 <= i < j < |sorted| ensures sorted[i].timestamp >= sorted[j].timestamp {
      assert !q(sorted[j], sorted[i]);
    }
  }

  predicate Before(s: seq<LogEntry>, a: LogEntry, b: LogEntry) {
    exists i, j :: 0 <= i < j < |s| && s[i] == a && s[j] == b
  }

  lemma BeforeCons(x: LogEntry, s: seq<LogEntry>, a: LogEntry, b: LogEntry)
    requires Before(s, a, b) || (x == a && b in s)
    ensures Before([x] + s, a, b)
  {
    var t := [x] + s;
    if Before(s, a, b) {
      var i, j :| 0 <= i < j < |s| && s[i] == a && s[j] == b;
      assert t[i + 1] == a && t[j + 1] == b;
    } else {
      var j :| 0 <= j < |s| && s[j] == b;
      assert t[0] == a && t[j + 1] == b;
    }
  }

  lemma BeforeTail(s: seq<LogEntry>, a: LogEntry, b: LogEntry)
    requires Before(s, a, b)
    ensures s != [] && (Before(s[1..], a, b) || (s[0] == a && b in s[1..]))
  {
    var i, j :| 0 <= i < j < |s| && s[i] == a && s[j] == b;
    assert s[1..][j - 1] == b;
    if i > 0 { assert s[1..][i - 1] == a; }
  }

  /** An insertion keeps the relative order of what is there. */
  lemma {:induction false} InsertKeepsOrder(less: (LogEntry, LogEntry) -> bool, x: LogEntry, s: seq<LogEntry>,
                                            a: LogEntry, b: LogEntry)
    requires Before(s, a, b)
    ensures Before(Insert(less, x, s), a, b)
  {
    BeforeTail(s, a, b);
    if less(x, s[0]) {
      BeforeCons(x, s, a, b);
    } else {
      InsertKeepsMember(less, x, s[1..], b);
      if Before(s[1..], a, b) { InsertKeepsOrder(less, x, s[1..], a, b); }
      BeforeCons(s[0], Insert(less, x, s[1..]), a, b);
    }
  }

  lemma InsertKeepsMember(less: (LogEntry, LogEntry) -> bool, x: LogEntry, s: seq<LogEntry>, e: LogEntry)
    ensures e in s ==> e in Insert(less, x, s)
  {
    InsertMembers(less, x, s);
    if e in s {
      assert e in multiset(s) + multiset{x};
      assert e in multiset(Insert(less, x, s));
    }
  }

  /** What the comparator does not tell apart comes out in the order in which it went in first. */
  lemma {:induction false} PairStays(less: (LogEntry, LogEntry) -> bool, a: LogEntry, b: LogEntry, rest: seq<LogEntry>)
    requires !less(b, a)
    ensures Before(Sort(less, [a, b] + rest), a, b)
    decreases |rest|
  {
    var all := [a, b] + rest;
    if rest == [] {
      assert all == [a, b];
      SortPair(less, a, b);
      assert Sort(less, all)[0] == a && Sort(less, all)[1] == b;
    } else {
      var n := |rest| - 1;
      PairStays(less, a, b, rest[..n]);
      assert all[..|all| - 1] == [a, b] + rest[..n];
      InsertKeepsOrder(less, rest[n], Sort(less, [a, b] + rest[..n]), a, b);
    }
  }

  /** The log with the entries at i and j brought to the front. */
  lemma Forward(log: seq<LogEntry>, i: nat, j: nat) returns (rest: seq<LogEntry>)
    requires i < |log| && j < |log| && i != j
    ensures multiset([log[i], log[j]] + rest) == multiset(log)
  {
    var lo, hi := if i < j then i else j, if i < j then j else i;
    rest := log[..lo] + log[lo + 1..hi] + log[hi + 1..];
    assert log == log[..lo] + [log[lo]] + log[lo + 1..hi] + [log[hi]] + log[hi + 1..];
    TakenOut(log[..lo], log[lo], log[lo + 1..hi], log[hi], log[hi + 1..]);
  }

  lemma TakenOut<T>(a: seq<T>, x: T, b: seq<T>, y: T, c: seq<T>)
    ensures multiset(a + [x] + b + [y] + c) == multiset([x, y] + (a + b + c))
    ensures multiset(a + [x] + b + [y] + c) == multiset([y, x] + (a + b + c))
  {
    assert multiset([x, y]) == multiset([y, x]);
  }

  lemma MatchingSameMembers(f: Filter, a: seq<LogEntry>, b: seq<LogEntry>)
    requires multiset(a) == multiset(b)
    ensures forall e :: e in Matching(f, a) <==> e in Matching(f, b)
  {
    SameMembers(a, b);
    forall e ensures e in Matching(f, a) <==> e in Matching(f, b) {
      MatchingMembers(f, a, e);
      MatchingMembers(f, b, e);
    }
  }

  /** An arrangement of the log that delivers an older entry before a newer one. */
  lemma Misordered(f: Filter, log: seq<LogEntry>, older: LogEntry, newer: LogEntry) returns (a: seq<LogEntry>)
    requires !f.ascending && older in Matching(f, log) && newer in Matching(f, log)
    requires Identity(older) == Identity(newer) && older.timestamp < newer.timestamp
    ensures multiset(a) == multiset(log) && !TimeDescending(Sorted(f, a))
  {
    MatchingMembers(f, log, older);
    MatchingMembers(f, log, newer);
    var i :| 0 <= i < |log| && log[i] == older;
    var j :| 0 <= j < |log| && log[j] == newer;
    var rest := Forward(log, i, j);
    a := [older, newer] + rest;
    MatchingPair(f, older, newer);
    MatchingAppend(f, [older, newer], rest);
    PairStays((x, y) => Comparator(false, x, y), older, newer, Matching(f, rest));
    BeforeMisorders(Sorted(f, a), older, newer);
  }

  lemma BeforeMisorders(s: seq<LogEntry>, older: LogEntry, newer: LogEntry)
    requires Before(s, older, newer) && older.timestamp < newer.timestamp
    ensures !TimeDescending(s)
  {
  }

  /**
   A descending query delivers newer entries first, in whatever order the files were read, if and only if matching
   entries that share an identity share their time.
   */
  lemma DescendingOrderIff(f: Filter, log: seq<LogEntry>)
    requires !f.ascending
    ensures (forall a :: multiset(a) == multiset(log) ==> TimeDescending(Sorted(f, a))) <==>
            TimedIdentities(Matching(f, log))
  {
    if TimedIdentities(Matching(f, log)) {
      forall a | multiset(a) == multiset(log) ensures TimeDescending(Sorted(f, a)) {
        MatchingSameMembers(f, a, log);
        forall x, y | x in Matching(f, a) && y in Matching(f, a) ensures SameTime(x, y) {
          assert x in Matching(f, log) && y in Matching(f, log);
        }
        TimedSorts(Matching(f, a));
      }
    } else {
      var x, y :| x in Matching(f, log) && y in Matching(f, log) && !SameTime(x, y);
      var older, newer := if x.timestamp < y.timestamp then x else y, if x.timestamp < y.timestamp then y else x;
      var a := Misordered(f, log, older, newer);
    }
  }

  // ---- What remains after an anchor ---------------------------------------------------------

  predicate After(f: Filter, anchor: Option<Anchor>, e: LogEntry) {
    anchor.None? || Precedes(f.ascending, anchor.value, KeyOf(e))
  }

  lemma SkipsIsNotAfter(f: Filter, anchor: Option<Anchor>, e: LogEntry)
    ensures Skips(f, anchor, e) <==> !After(f, anchor, e)
  {
    if anchor.Some? { KeyLessTotal(KeyOf(e), anchor.value); }
  }

  lemma {:induction false} RemainingMembers(f: Filter, anchor: Option<Anchor>, sorted: seq<LogEntry>)
    requires Chain(f.ascending, sorted)
    ensures var rest := Remaining(f, anchor, sorted);
            && Chain(f.ascending, rest)
            && forall e :: e in rest <==> e in sorted && After(f, anchor, e)
  {
    if sorted == [] {
    } else {
      var tail := sorted[1..];
      RemainingMembers(f, anchor, tail);
      SkipsIsNotAfter(f, anchor, sorted[0]);
      var rest := Remaining(f, anchor, tail);
      forall i | 0 <= i < |rest| ensures Precedes(f.ascending, KeyOf(sorted[0]), KeyOf(rest[i])) {
        assert rest[i] in tail;
        var k :| 0 <= k < |tail| && tail[k] == rest[i];
        assert sorted[k + 1] == rest[i];
      }
      assert forall e :: e in sorted <==> e == sorted[0] || e in tail;
    }
  }

  /** Entries of a page are matching entries of the log after the anchor, strictly in order. */
  lemma PageMeaning(f: Filter, anchor: Option<Anchor>, limit: nat, log: seq<LogEntry>)
    requires DistinctIdentities(log) && limit > 0
    ensures var page := PageOf(f, anchor, limit, log);
            && Chain(f.ascending, page.list) && |page.list| <= limit
            && (forall e :: e in page.list ==> e in log && Matches(e, f) && After(f, anchor, e))
            && (page.next.Some? ==> |page.list| == limit && page.next.value == page.list[limit - 1])
            && (forall e :: e in log && Matches(e, f) && After(f, anchor, e) ==>
                  e in page.list || (page.next.Some? && Precedes(f.ascending, KeyOf(page.next.value), KeyOf(e))))
  {
    SortedIsChain(f, log);
    RemainingMembers(f, anchor, Sorted(f, log));
    var rest := Remaining(f, anchor, Sorted(f, log));
    forall e | e in rest
      ensures |rest| <= limit || e in rest[..limit] || Precedes(f.ascending, KeyOf(rest[limit - 1]), KeyOf(e))
    {
      var i :| 0 <= i < |rest| && rest[i] == e;
      if i < limit && |rest| > limit { assert rest[..limit][i] == e; }
    }
  }

  lemma {:induction false} RemainingIsPart(f: Filter, anchor: Option<Anchor>, sorted: seq<LogEntry>, e: LogEntry)
    requires e in Remaining(f, anchor, sorted)
    ensures e in sorted && After(f, anchor, e)
  {
    SkipsIsNotAfter(f, anchor, sorted[0]);
    if e !in Remaining(f, anchor, sorted[1..]) {
    } else {
      RemainingIsPart(f, anchor, sorted[1..], e);
    }
  }

  /** Whatever the identities, a page holds only entries of the log that meet every demand and lie behind the anchor. */
  lemma DeliveredSatisfies(f: Filter, anchor: Option<Anchor>, limit: nat, log: seq<LogEntry>, e: LogEntry)
    requires limit > 0 && e in PageOf(f, anchor, limit, log).list
    ensures e in log && Satisfies(e, f) && After(f, anchor, e)
  {
    var less := (a, b) => Comparator(f.ascending, a, b);
    RemainingIsPart(f, anchor, Sorted(f, log), e);
    SortAgrees(less, less, Matching(f, log));
    SameMembers(Sorted(f, log), Matching(f, log));
    MatchingMembers(f, log, e);
    MatchMeaning(e, f);
  }

  /**
   The page answers the filter: it holds only entries of the log that meet every demand, strictly in order behind the
   anchor, and what meets them there is in the page or behind its cursor.
   */
  ghost predicate Serves(f: Filter, anchor: Option<Anchor>, limit: nat, log: seq<LogEntry>, page: Page) {
    && |page.list| <= limit && Chain(f.ascending, page.list)
    && (forall e :: e in page.list ==> e in log && Satisfies(e, f) && After(f, anchor, e))
    && (page.next.Some? ==> |page.list| == limit > 0 && page.next.value == page.list[limit - 1])
    && (forall e :: e in log && Satisfies(e, f) && After(f, anchor, e) ==>
          e in page.list || (page.next.Some? && Precedes(f.ascending, KeyOf(page.next.value), KeyOf(e))))
  }

  lemma PageServes(f: Filter, anchor: Option<Anchor>, limit: nat, log: seq<LogEntry>)
    requires DistinctIdentities(log) && limit > 0
    ensures Serves(f, anchor, limit, log, PageOf(f, anchor, limit, log))
  {
    PageMeaning(f, anchor, limit, log);
    forall e ensures Matches(e, f) <==> Satisfies(e, f) { MatchMeaning(e, f); }
  }

  // ---- Cursors ------------------------------------------------------------------------------

  const MAX_CURSOR_LENGTH: nat := 1024
  const MAX_KEY_LENGTH: nat := 128

  /** The filter stands for its hash; the page limit is not part of it. */
  datatype Cursor = Cursor(filter: Filter, at: int, key: string)

  /** A cursor as the client sends it: its length, and what it decodes to if it is the text of a cursor at all. */
  datatype Token = Token(length: nat, content: Option<Cursor>)

  function EncodeCursor(f: Filter, e: LogEntry): Cursor { Cursor(f, e.timestamp, Identity(e)) }

  /** encodeEntryCursor; `wire` gives the length of an encoded cursor. */
  function TokenOf(f: Filter, e: LogEntry, wire: Cursor -> nat): Token {
    Token(wire(EncodeCursor(f, e)), Some(EncodeCursor(f, e)))
  }

  datatype Decoded = NoAnchor | Anchored(anchor: Anchor) | InvalidCursor

  /** decodeEntryCursor */
  function DecodeCursor(f: Filter, token: Option<Token>): Decoded {
    if token.None? then NoAnchor
    else if token.value.length > MAX_CURSOR_LENGTH || token.value.content.None? then InvalidCursor
    else
      var c := token.value.content.value;
      if c.filter != f || c.at < f.from || c.at > f.to || c.key == "" || |c.key| > MAX_KEY_LENGTH then InvalidCursor
      else Anchored(Anchor(c.at, c.key))
  }

  /** A token is accepted exactly when it is short enough, decodes, was made for the filter, and has a time in range. */
  lemma DecodeMeaning(f: Filter, token: Token)
    ensures var d := DecodeCursor(f, Some(token));
            if token.length <= 1024 && token.content.Some? && token.content.value.filter == f
               && f.from <= token.content.value.at && token.content.value.at <= f.to
               && 1 <= |token.content.value.key| <= 128
            then d == Anchored(Anchor(token.content.value.at, token.content.value.key))
            else d == InvalidCursor
  {
  }

  /** The identity of the entry fits into a cursor. */
  predicate Anchorable(f: Filter, e: LogEntry, wire: Cursor -> nat) {
    0 < |Identity(e)| <= MAX_KEY_LENGTH && wire(EncodeCursor(f, e)) <= MAX_CURSOR_LENGTH
  }

  /** A cursor made from a delivered entry is accepted, and names that entry, exactly when its identity fits. */
  lemma CursorRoundTrip(f: Filter, g: Filter, e: LogEntry, wire: Cursor -> nat)
    requires Matches(e, f)
    ensures DecodeCursor(g, Some(TokenOf(f, e, wire))) == Anchored(KeyOf(e)) <==> g == f && Anchorable(f, e, wire)
    ensures DecodeCursor(g, Some(TokenOf(f, e, wire))).InvalidCursor? <==> !(g == f && Anchorable(f, e, wire))
  {
  }

  function Letters(n: nat): string { seq(n, _ => 'a') }

  const DAY: int := 86400000000000

  const EVERYTHING := Filter(0, DAY, [], [], [], [], [], "", map[], false, false)

  function Named(at: int, id: string): LogEntry {
    LogEntry(at, "", "", "", "", "", "", map["event_id" := id], 0, false, "")
  }

  /** An entry whose identity has 129 characters is delivered, but the cursor behind it is refused. */
  lemma LongIdentityRefused(wire: Cursor -> nat) returns (e: LogEntry)
    ensures Matches(e, EVERYTHING) && |Identity(e)| == MAX_KEY_LENGTH + 1
    ensures DecodeCursor(EVERYTHING, Some(TokenOf(EVERYTHING, e, wire))).InvalidCursor?
  {
    e := Named(1, Letters(MAX_KEY_LENGTH + 1));
  }

  /** Two entries that share an identity come out of a descending query with the older one first. */
  lemma SharedIdentityMisorders() returns (older: LogEntry, newer: LogEntry)
    ensures older.timestamp < newer.timestamp && Identity(older) == Identity(newer)
    ensures !EVERYTHING.ascending && Sorted(EVERYTHING, [older, newer]) == [older, newer]
  {
    older, newer := Named(1, "x"), Named(2, "x");
    MatchingPair(EVERYTHING, older, newer);
    SortPair((a, b) => Comparator(false, a, b), older, newer);
  }

  lemma MatchingPair(f: Filter, a: LogEntry, b: LogEntry)
    requires Matches(a, f) && Matches(b, f)
    ensures Matching(f, [a, b]) == [a, b]
  {
    assert [a, b][..1] == [a] && [a][..0] == [];
    assert Matching(f, [a]) == Matching(f, [a][..0]) + [a];
  }

  lemma SortPair(less: (LogEntry, LogEntry) -> bool, a: LogEntry, b: LogEntry)
    requires !less(b, a)
    ensures Sort(less, [a, b]) == [a, b]
  {
    assert [a, b][..1] == [a] && [a][..0] == [] && [a][1..] == [];
    assert Sort(less, [a]) == Insert(less, a, Sort(less, [a][..0])) == [a];
    assert Insert(less, b, [a]) == [a] + Insert(less, b, [a][1..]);
  }

  // ---- Filters as clients send them ---------------------------------------------------------

  const DEFAULT_QUERY_LIMIT: int := 100
  const MAX_QUERY_LIMIT: int := 200
  const MAX_KEYWORD: nat := 128
  const ATTEMPT := "attempt_number"

  /** A filter before Normalize: times may be missing, direction and limit may be left to default. */
  datatype Query = Query(
    from: Option<int>, to: Option<int>, levels: seq<string>, modules: seq<string>, components: seq<string>,
    operations: seq<string>, pluginIds: seq<string>, keyword: string, correlations: map<string, string>,
    businessOnly: bool, direction: string, limit: int)

  datatype Normalized = Rejected | Normalized(filter: Filter, limit: nat)

  function UpperEnd(q: Query, now: int): int { if q.to.Some? then q.to.value else now }

  function LowerEnd(q: Query, now: int): int { if q.from.Some? then q.from.value else UpperEnd(q, now) - DAY }

  predicate GoodCorrelation(id: string) { |id| <= 128 && '\0' !in id && '\r' !in id && '\n' !in id }

  /** The correlations are well formed; `atoi` reads a decimal integer. */
  predicate GoodCorrelations(q: Query, atoi: string -> Option<int>) {
    forall k :: k in q.correlations ==>
      if k == ATTEMPT
      then q.correlations[k] == "" || (atoi(q.correlations[k]).Some? && atoi(q.correlations[k]).value >= 1)
      else GoodCorrelation(q.correlations[k])
  }

  predicate GoodLevels(levels: seq<string>) {
    forall i :: 0 <= i < |levels| ==> levels[i] in {"debug", "info", "warn", "error"}
  }

  predicate GoodQuery(q: Query, atoi: string -> Option<int>, now: int) {
    && LowerEnd(q, now) < UpperEnd(q, now) <= LowerEnd(q, now) + 31 * DAY && |q.keyword| <= MAX_KEYWORD
    && q.direction in {"", "asc", "desc"} && GoodCorrelations(q, atoi) && q.limit <= MAX_QUERY_LIMIT
    && GoodLevels(q.levels)
  }

  /** Normalize */
  function Normalize(q: Query, atoi: string -> Option<int>, now: int): Normalized {
    if !GoodQuery(q, atoi, now) then Rejected
    else
      var filter := Filter(LowerEnd(q, now), UpperEnd(q, now), q.levels, q.modules, q.components, q.operations,
                           q.pluginIds, q.keyword, q.correlations, q.businessOnly, q.direction == "asc");
      Normalized(filter, if q.limit <= 0 then DEFAULT_QUERY_LIMIT else q.limit)
  }

  /**
   An accepted query spans at most 31 days, the last one when it names no lower end, and asks for 1 to 200 entries,
   100 when it leaves the number open, newest first unless it says "asc".
   */
  lemma NormalizeMeaning(q: Query, atoi: string -> Option<int>, now: int)
    requires Normalize(q, atoi, now).Normalized?
    ensures var f := Normalize(q, atoi, now).filter;
            && f.to == (if q.to.Some? then q.to.value else now)
            && (if q.from.Some? then f.from == q.from.value else f.to - f.from == 24 * 3600 * 1000000000)
            && f.from < f.to && f.to - f.from <= 31 * 24 * 3600 * 1000000000
            && |f.keyword| <= 128 && (f.ascending <==> q.direction == "asc")
    ensures var limit := Normalize(q, atoi, now).limit;
            1 <= limit <= 200 && (q.limit > 0 ==> limit == q.limit) && (q.limit <= 0 ==> limit == 100)
    ensures var f := Normalize(q, atoi, now).filter;
            && f.levels == q.levels && f.modules == q.modules && f.components == q.components
            && f.operations == q.operations && f.pluginIds == q.pluginIds && f.keyword == q.keyword
            && f.correlations == q.correlations && f.businessOnly == q.businessOnly
  {
  }

  /**
   A query is refused exactly when its range is empty or longer than 31 days, its keyword longer than 128 characters,
   its direction neither "asc" nor "desc" nor left open, its limit above 200, a level unknown, a correlation longer than
   128 characters or with a zero byte or line break, or its attempt no number from 1 up.
   */
  lemma NormalizeIff(q: Query, atoi: string -> Option<int>, now: int)
    ensures var hi := if q.to.Some? then q.to.value else now;
            var lo := if q.from.Some? then q.from.value else hi - 24 * 3600 * 1000000000;
            Normalize(q, atoi, now).Rejected? <==>
            || lo >= hi || hi - lo > 31 * 24 * 3600 * 1000000000 || |q.keyword| > 128
            || (q.direction != "" && q.direction != "asc" && q.direction != "desc") || q.limit > 200
            || (exists i :: 0 <= i < |q.levels| && q.levels[i] !in {"debug", "info", "warn", "error"})
            || (exists k :: k in q.correlations && k != "attempt_number" && BadText(q.correlations[k]))
            || ("attempt_number" in q.correlations && BadNumber(q.correlations["attempt_number"], atoi))
  {
    forall k | k in q.correlations && k != ATTEMPT
      ensures GoodCorrelation(q.correlations[k]) <==> !BadText(q.correlations[k])
    {
      TextMeaning(q.correlations[k]);
    }
  }

  predicate BadText(id: string) {
    |id| > 128 || exists i :: 0 <= i < |id| && (id[i] == '\0' || id[i] == '\r' || id[i] == '\n')
  }

  lemma TextMeaning(id: string)
    ensures GoodCorrelation(id) <==> !BadText(id)
  {
  }

  predicate BadNumber(text: string, atoi: string -> Option<int>) {
    text != "" && (atoi(text) == None || atoi(text).value <= 0)
  }

  /** The query with the upper end of the first reply filled in, as `snapshot_to` reports it. */
  function Pinned(q: Query, f: Filter): Query { q.(to := Some(f.to)) }

  /** A pinned query normalises to the filter of the first page at every later time. */
  lemma PinnedIsStable(q: Query, atoi: string -> Option<int>, now: int, later: int)
    requires Normalize(q, atoi, now).Normalized?
    ensures Normalize(Pinned(q, Normalize(q, atoi, now).filter), atoi, later) == Normalize(q, atoi, now)
  {
  }

  /**
   The cursor of one page is accepted by the same query at another time exactly when the query names its upper end:
   otherwise the clock is part of the filter, and the filter part of the cursor.
   */
  lemma CursorNeedsUpperEnd(q: Query, atoi: string -> Option<int>, now: int, later: int, e: LogEntry,
                            wire: Cursor -> nat)
    requires Normalize(q, atoi, now).Normalized? && Normalize(q, atoi, later).Normalized? && now != later
    requires var f := Normalize(q, atoi, now).filter; Matches(e, f) && Anchorable(f, e, wire)
    ensures var f, g := Normalize(q, atoi, now).filter, Normalize(q, atoi, later).filter;
            DecodeCursor(g, Some(TokenOf(f, e, wire))) == Anchored(KeyOf(e)) <==> q.to.Some?
  {
    CursorRoundTrip(Normalize(q, atoi, now).filter, Normalize(q, atoi, later).filter, e, wire);
  }

  // ---- Query --------------------------------------------------------------------------------

  /** What reading a file within a byte budget gave: `failed` reports an error, the budget included. */
  datatype FileRead = FileRead(entries: seq<LogEntry>, bytes: nat, malformed: nat, failed: bool)

  /** A log file: its well-formed entries, and what readEntriesBudget makes of it under each budget. */
  datatype LogFile = LogFile(entries: seq<LogEntry>, read: nat -> FileRead)

  /** Reading delivers a prefix of the entries, and all of them when it reports no error. */
  ghost predicate Faithful(file: LogFile) {
    forall budget :: ReadsPrefix(file, budget)
  }

  predicate ReadsPrefix(file: LogFile, budget: nat) {
    && file.read(budget).entries <= file.entries
    && (!file.read(budget).failed ==> file.read(budget).entries == file.entries)
  }

  const MAX_SCAN_BYTES: nat := 67108864

  /** What has been read of the files so far; `cut` says that something was left out. */
  datatype Reading = Reading(log: seq<LogEntry>, bytes: nat, malformed: nat, cut: bool)

  /** The file loop from file i on; the context is found cancelled at file `alive` and every later one. */
  function ReadFrom(files: seq<LogFile>, i: nat, alive: nat, r: Reading): Reading
    requires i <= |files|
    decreases |files| - i
  {
    if i == |files| then r
    else if alive <= i then r.(cut := true)
    else
      var got := files[i].read(if r.bytes <= MAX_SCAN_BYTES then MAX_SCAN_BYTES - r.bytes else 0);
      var next := Reading(r.log + got.entries, r.bytes + got.bytes, r.malformed + got.malformed, r.cut || got.failed);
      if next.bytes >= MAX_SCAN_BYTES then next.(cut := true) else ReadFrom(files, i + 1, alive, next)
  }

  /** `listed` is false when the directory could not be listed. */
  function ReadAll(files: seq<LogFile>, listed: bool, alive: nat): Reading {
    ReadFrom(files, 0, alive, Reading([], 0, 0, !listed))
  }

  function AllEntries(files: seq<LogFile>): seq<LogEntry> {
    if files == [] then [] else AllEntries(files[..|files| - 1]) + files[|files| - 1].entries
  }

  lemma {:induction false} ReadFromComplete(files: seq<LogFile>, i: nat, alive: nat, r: Reading)
    requires i <= |files| && forall k :: 0 <= k < |files| ==> Faithful(files[k])
    requires r.log == AllEntries(files[..i]) && !ReadFrom(files, i, alive, r).cut
    ensures !r.cut && ReadFrom(files, i, alive, r).log == AllEntries(files)
    decreases |files| - i
  {
    if i == |files| {
      assert files[..i] == files;
    } else {
      var budget: nat := if r.bytes <= MAX_SCAN_BYTES then MAX_SCAN_BYTES - r.bytes else 0;
      assert ReadsPrefix(files[i], budget);
      var got := files[i].read(budget);
      var next := Reading(r.log + got.entries, r.bytes + got.bytes, r.malformed + got.malformed, r.cut || got.failed);
      assert files[..i + 1][..i] == files[..i];
      if next.bytes < MAX_SCAN_BYTES && alive > i {
        CutStays(files, i + 1, alive, next);
        ReadFromComplete(files, i + 1, alive, next);
      }
    }
  }

  lemma {:induction false} CutStays(files: seq<LogFile>, i: nat, alive: nat, r: Reading)
    requires i <= |files|
    ensures r.cut ==> ReadFrom(files, i, alive, r).cut
    decreases |files| - i
  {
    if i == |files| || alive <= i {
    } else {
      var got := files[i].read(if r.bytes <= MAX_SCAN_BYTES then MAX_SCAN_BYTES - r.bytes else 0);
      var next := Reading(r.log + got.entries, r.bytes + got.bytes, r.malformed + got.malformed, r.cut || got.failed);
      CutStays(files, i + 1, alive, next);
    }
  }

  /** A reading whose context ends before the last file is cut. */
  lemma {:induction false} CancelledIsCut(files: seq<LogFile>, i: nat, alive: nat, r: Reading)
    requires i <= |files| && alive < |files|
    ensures i < |files| ==> ReadFrom(files, i, alive, r).cut
    decreases |files| - i
  {
    if i == |files| || alive <= i {
    } else {
      var got := files[i].read(if r.bytes <= MAX_SCAN_BYTES then MAX_SCAN_BYTES - r.bytes else 0);
      var next := Reading(r.log + got.entries, r.bytes + got.bytes, r.malformed + got.malformed, r.cut || got.failed);
      CancelledIsCut(files, i + 1, alive, next);
    }
  }

  /** A reading that was not cut has seen every entry of every file. */
  lemma UncutIsComplete(files: seq<LogFile>, listed: bool, alive: nat)
    requires (forall k :: 0 <= k < |files| ==> Faithful(files[k])) && !ReadAll(files, listed, alive).cut
    ensures listed && ReadAll(files, listed, alive).log == AllEntries(files)
  {
    assert files[..0] == [];
    ReadFromComplete(files, 0, alive, Reading([], 0, 0, !listed));
  }

  /** The file can be read and decompressed; it has so many bytes, and reading it is cut only by the budget. */
  ghost predicate Readable(file: LogFile, size: nat) {
    forall budget: nat :: ReadsWhole(file, size, budget)
  }

  predicate ReadsWhole(file: LogFile, size: nat, budget: nat) {
    size <= budget ==> !file.read(budget).failed && file.read(budget).bytes == size
                       && file.read(budget).entries == file.entries
  }

  function Sum(sizes: seq<nat>): nat {
    if sizes == [] then 0 else Sum(sizes[..|sizes| - 1]) + sizes[|sizes| - 1]
  }

  lemma {:induction false} SumGrows(sizes: seq<nat>, i: nat)
    requires i <= |sizes|
    ensures Sum(sizes[..i]) <= Sum(sizes)
  {
    if i == |sizes| {
      assert sizes[..i] == sizes;
    } else {
      SumGrows(sizes[..|sizes| - 1], i);
      assert sizes[..|sizes| - 1][..i] == sizes[..i];
    }
  }

  lemma {:induction false} ReadFromWhole(files: seq<LogFile>, sizes: seq<nat>, i: nat, alive: nat, r: Reading)
    requires i <= |files| == |sizes| <= alive && Sum(sizes) < MAX_SCAN_BYTES
    requires forall k :: 0 <= k < |files| ==> Readable(files[k], sizes[k])
    requires !r.cut && r.bytes == Sum(sizes[..i]) && r.log == AllEntries(files[..i])
    ensures var all := ReadFrom(files, i, alive, r);
            !all.cut && all.bytes == Sum(sizes) && all.log == AllEntries(files)
    decreases |files| - i
  {
    if i == |files| {
      assert files[..i] == files && sizes[..i] == sizes;
    } else {
      assert files[..i + 1][..i] == files[..i] && sizes[..i + 1][..i] == sizes[..i];
      SumGrows(sizes, i + 1);
      var budget: nat := MAX_SCAN_BYTES - r.bytes;
      assert ReadsWhole(files[i], sizes[i], budget);
      var got := files[i].read(budget);
      ReadFromWhole(files, sizes, i + 1, alive,
                    Reading(r.log + got.entries, r.bytes + got.bytes, r.malformed + got.malformed, false));
    }
  }

  /** Readable files of less than 64 MiB together are read whole, each in full, when nobody cancels. */
  lemma SmallLogIsUncut(files: seq<LogFile>, sizes: seq<nat>, alive: nat)
    requires |files| == |sizes| <= alive && Sum(sizes) < 64 * 1024 * 1024
    requires forall k :: 0 <= k < |files| ==> Readable(files[k], sizes[k])
    ensures var r := ReadAll(files, true, alive); !r.cut && r.bytes == Sum(sizes) && r.log == AllEntries(files)
  {
    assert files[..0] == [] && sizes[..0] == [];
    ReadFromWhole(files, sizes, 0, alive, Reading([], 0, 0, false));
  }

  datatype Reply =
    | Invalid
    | Answer(list: seq<LogEntry>, next: Option<Token>, scannedBytes: nat, malformed: nat, partial: bool)

  function Following(f: Filter, page: Page, wire: Cursor -> nat): Option<Token> {
    if page.next.None? then None else Some(TokenOf(f, page.next.value, wire))
  }

  predicate AnyTruncated(entries: seq<LogEntry>) { exists i :: 0 <= i < |entries| && entries[i].truncated }

  function AnchorOf(d: Decoded): Option<Anchor> {
    if d.Anchored? then Some(d.anchor) else None
  }

  lemma {:induction false} RemainingAppend(f: Filter, anchor: Option<Anchor>, a: seq<LogEntry>, b: seq<LogEntry>)
    ensures Remaining(f, anchor, a + b) == Remaining(f, anchor, a) + Remaining(f, anchor, b)
  {
    if a == [] {
      assert a + b == b;
    } else {
      RemainingAppend(f, anchor, a[1..], b);
      assert (a + b)[1..] == a[1..] + b;
    }
  }

  lemma RemainingStep(f: Filter, anchor: Option<Anchor>, sorted: seq<LogEntry>, i: nat)
    requires i < |sorted|
    ensures Remaining(f, anchor, sorted[..i + 1]) ==
            Remaining(f, anchor, sorted[..i]) + if Skips(f, anchor, sorted[i]) then [] else [sorted[i]]
  {
    assert sorted[..i + 1] == sorted[..i] + [sorted[i]];
    RemainingAppend(f, anchor, sorted[..i], [sorted[i]]);
    assert [sorted[i]][1..] == [];
  }

  /** In an ordered list the anchor cannot follow an entry that comes after it. */
  lemma NotBeyond(f: Filter, anchor: Option<Anchor>, sorted: seq<LogEntry>, i: nat)
    requires Chain(f.ascending, sorted) && i < |sorted| && !Skips(f, anchor, sorted[i])
    ensures forall k :: i <= k < |sorted| ==> anchor != Some(KeyOf(sorted[k]))
  {
    SkipsIsNotAfter(f, anchor, sorted[i]);
    forall k | i <= k < |sorted| ensures anchor != Some(KeyOf(sorted[k])) {
      if anchor.Some? { KeyLessTotal(KeyOf(sorted[i]), anchor.value); }
    }
  }

  /** The page loop: skip to the anchor, deliver up to the limit, stop at the first entry beyond it. */
  method TakePage(f: Filter, anchor: Option<Anchor>, limit: nat, sorted: seq<LogEntry>)
    returns (page: Page, found: bool)
    requires limit > 0
    ensures page == Cut(Remaining(f, anchor, sorted), limit)
    ensures Chain(f.ascending, sorted) ==>
              (found <==> anchor.None? || exists e :: e in sorted && KeyOf(e) == anchor.value)
  {
    var list: seq<LogEntry> := [];
    found := anchor.None?;
    var i := 0;
    while i < |sorted|
      invariant 0 <= i <= |sorted|
      invariant list == Remaining(f, anchor, sorted[..i]) && |list| <= limit
      invariant found <==> anchor.None? || exists k :: 0 <= k < i && KeyOf(sorted[k]) == anchor.value
    {
      RemainingStep(f, anchor, sorted, i);
      if anchor.Some? && KeyOf(sorted[i]) == anchor.value {
        found := true;
      } else if Skips(f, anchor, sorted[i]) {
      } else {
        if |list| == limit {
          RemainingAppend(f, anchor, sorted[..i], sorted[i..]);
          assert sorted == sorted[..i] + sorted[i..];
          if Chain(f.ascending, sorted) { NotBeyond(f, anchor, sorted, i); }
          return Page(list, Some(list[|list| - 1])), found;
        }
        list := list + [sorted[i]];
      }
      i := i + 1;
    }
    assert sorted[..i] == sorted;
    return Page(list, None), found;
  }

  lemma {:induction false} MatchingAppend(f: Filter, a: seq<LogEntry>, b: seq<LogEntry>)
    ensures Matching(f, a + b) == Matching(f, a) + Matching(f, b)
    decreases |b|
  {
    if b == [] {
      assert a + b == a;
    } else {
      var n := |b| - 1;
      assert (a + b)[..|a + b| - 1] == a + b[..n];
      MatchingAppend(f, a, b[..n]);
    }
  }

  /** The entry loop over one file. */
  method MatchFile(f: Filter, entries: seq<LogEntry>) returns (matched: seq<LogEntry>, truncated: bool)
    ensures matched == Matching(f, entries) && truncated == AnyTruncated(matched)
  {
    matched, truncated := [], false;
    var i := 0;
    while i < |entries|
      invariant 0 <= i <= |entries|
      invariant matched == Matching(f, entries[..i]) && truncated == AnyTruncated(matched)
    {
      assert entries[..i + 1][..i] == entries[..i];
      if Matches(entries[i], f) {
        if entries[i].truncated { truncated := true; }
        ghost var before := matched;
        matched := matched + [entries[i]];
        assert matched[|before|] == entries[i] && forall k :: 0 <= k < |before| ==> matched[k] == before[k];
      }
      i := i + 1;
    }
    assert entries[..i] == entries;
  }

  lemma TruncatedAppend(a: seq<LogEntry>, b: seq<LogEntry>)
    ensures AnyTruncated(a + b) <==> AnyTruncated(a) || AnyTruncated(b)
  {
    if i :| 0 <= i < |a| && a[i].truncated { assert (a + b)[i].truncated; }
    if i :| 0 <= i < |b| && b[i].truncated { assert (a + b)[|a| + i].truncated; }
  }

  /** The file loop. */
  method Collect(f: Filter, files: seq<LogFile>, listed: bool, alive: nat)
    returns (matched: seq<LogEntry>, bytes: nat, malformed: nat, partial: bool)
    ensures var r := ReadAll(files, listed, alive);
            && matched == Matching(f, r.log) && bytes == r.bytes && malformed == r.malformed
            && partial == (r.cut || AnyTruncated(matched))
  {
    matched, bytes, malformed, partial := [], 0, 0, !listed;
    ghost var r := Reading([], 0, 0, !listed);
    var i := 0;
    while i < |files|
      invariant 0 <= i <= |files| && ReadFrom(files, i, alive, r) == ReadAll(files, listed, alive)
      invariant matched == Matching(f, r.log) && bytes == r.bytes && malformed == r.malformed
      invariant partial == (r.cut || AnyTruncated(matched))
    {
      if alive <= i {
        partial := true;
        return;
      }
      var got := files[i].read(if bytes <= MAX_SCAN_BYTES then MAX_SCAN_BYTES - bytes else 0);
      var found, truncated := MatchFile(f, got.entries);
      MatchingAppend(f, r.log, got.entries);
      TruncatedAppend(matched, found);
      r := Reading(r.log + got.entries, r.bytes + got.bytes, r.malformed + got.malformed, r.cut || got.failed);
      matched, bytes, malformed := matched + found, bytes + got.bytes, malformed + got.malformed;
      partial := partial || got.failed || truncated;
      if bytes >= MAX_SCAN_BYTES {
        partial := true;
        return;
      }
      i := i + 1;
    }
  }

  /** Some entry of the log is the one the anchor names. */
  ghost predicate AnchorPresent(f: Filter, anchor: Option<Anchor>, log: seq<LogEntry>) {
    anchor.None? || exists e :: e in log && Matches(e, f) && KeyOf(e) == anchor.value
  }

  /** Query with a normalised filter over the files of the log directory. */
  method RunQuery(f: Filter, limit: nat, token: Option<Token>, wire: Cursor -> nat, files: seq<LogFile>, listed: bool,
                  alive: nat)
    returns (reply: Reply)
    requires limit > 0
    ensures var decoded, r := DecodeCursor(f, token), ReadAll(files, listed, alive);
            if decoded.InvalidCursor? then reply == Invalid
            else
              var page := PageOf(f, AnchorOf(decoded), limit, r.log);
              && reply.Answer? && reply.list == page.list && reply.next == Following(f, page, wire)
              && reply.scannedBytes == r.bytes && reply.malformed == r.malformed
              && (r.cut || AnyTruncated(Matching(f, r.log)) ==> reply.partial)
              && (DistinctIdentities(r.log) ==>
                    (reply.partial <==> || r.cut || AnyTruncated(Matching(f, r.log))
                                        || !AnchorPresent(f, AnchorOf(decoded), r.log)))
    ensures reply.Answer? ==>
              var anchor, log := AnchorOf(DecodeCursor(f, token)), ReadAll(files, listed, alive).log;
              && (forall e :: e in reply.list ==> e in log && Satisfies(e, f) && After(f, anchor, e))
              && (DistinctIdentities(log) ==> Serves(f, anchor, limit, log, PageOf(f, anchor, limit, log)))
              && (reply.next.Some? ==>
                    reply.list != [] && reply.next == Some(TokenOf(f, reply.list[|reply.list| - 1], wire)))
              && (DistinctIdentities(log) && reply.next.None? ==>
                    forall e :: e in log && Satisfies(e, f) && After(f, anchor, e) ==> e in reply.list)
    ensures reply.Answer? && !reply.partial && (forall k :: 0 <= k < |files| ==> Faithful(files[k])) ==>
              listed && ReadAll(files, listed, alive).log == AllEntries(files)
  {
    var decoded := DecodeCursor(f, token);
    if decoded.InvalidCursor? {
      return Invalid;
    }
    ghost var log := ReadAll(files, listed, alive).log;
    var matched, bytes, malformed, partial := Collect(f, files, listed, alive);
    var sorted := Sort((a, b) => Comparator(f.ascending, a, b), matched);
    var page, found := TakePage(f, AnchorOf(decoded), limit, sorted);
    if DistinctIdentities(log) {
      SortedIsChain(f, log);
      PageServes(f, AnchorOf(decoded), limit, log);
    }
    forall e | e in page.list ensures e in log && Satisfies(e, f) && After(f, AnchorOf(decoded), e) {
      DeliveredSatisfies(f, AnchorOf(decoded), limit, log, e);
    }
    if !partial && forall k :: 0 <= k < |files| ==> Faithful(files[k]) { UncutIsComplete(files, listed, alive); }
    return Answer(page.list, Following(f, page, wire), bytes, malformed, partial || !found);
  }

  // ---- Walking the pages --------------------------------------------------------------------

  /** One page request: the entries the scan reads at that moment, and the page size asked for. */
  datatype Request = Request(log: seq<LogEntry>, limit: nat)

  ghost predicate GoodRequests(requests: seq<Request>) {
    forall i :: 0 <= i < |requests| ==> requests[i].limit > 0 && DistinctIdentities(requests[i].log)
  }

  /** Everything delivered while following NextCursor, as far as the requests and the cursors go. */
  ghost function Delivered(f: Filter, wire: Cursor -> nat, anchor: Option<Anchor>, requests: seq<Request>)
    : seq<LogEntry>
    requires GoodRequests(requests)
    decreases |requests|
  {
    if requests == [] then []
    else
      var page := PageOf(f, anchor, requests[0].limit, requests[0].log);
      if page.next.None? || !Anchorable(f, page.next.value, wire) then page.list
      else page.list + Delivered(f, wire, Some(KeyOf(page.next.value)), requests[1..])
  }

  /** The walk reaches a page without a next cursor, and no cursor on the way was rejected. */
  ghost predicate Completes(f: Filter, wire: Cursor -> nat, anchor: Option<Anchor>, requests: seq<Request>)
    requires GoodRequests(requests)
    decreases |requests|
  {
    requests != [] &&
    var page := PageOf(f, anchor, requests[0].limit, requests[0].log);
    page.next.None? ||
    (Anchorable(f, page.next.value, wire) && Completes(f, wire, Some(KeyOf(page.next.value)), requests[1..]))
  }

  lemma ChainConcat(f: Filter, a: seq<LogEntry>, b: seq<LogEntry>)
    requires a != [] && Chain(f.ascending, a) && Chain(f.ascending, b)
    requires forall e :: e in b ==> Precedes(f.ascending, KeyOf(a[|a| - 1]), KeyOf(e))
    ensures Chain(f.ascending, a + b)
  {
    var s, n := a + b, |a|;
    forall i, j | 0 <= i < j < |s| ensures Precedes(f.ascending, KeyOf(s[i]), KeyOf(s[j])) {
      if i < n <= j {
        assert s[j] == b[j - n];
        if i < n - 1 { PrecedesTransitive(f.ascending, KeyOf(a[i]), KeyOf(a[n - 1]), KeyOf(s[j])); }
      }
    }
  }

  lemma AfterTransitive(f: Filter, anchor: Option<Anchor>, last: LogEntry, e: LogEntry)
    requires After(f, anchor, last) && After(f, Some(KeyOf(last)), e)
    ensures After(f, anchor, e)
  {
    if anchor.Some? { PrecedesTransitive(f.ascending, anchor.value, KeyOf(last), KeyOf(e)); }
  }

  /**
   However the log changes between pages, and whatever part of it each scan reads, the walk delivers in strictly
   monotone order, hence no entry twice, and only matching entries after the anchor.
   */
  lemma {:induction false} WalkIsMonotone(f: Filter, wire: Cursor -> nat, anchor: Option<Anchor>,
                                          requests: seq<Request>)
    requires GoodRequests(requests)
    ensures Chain(f.ascending, Delivered(f, wire, anchor, requests))
    ensures forall e :: e in Delivered(f, wire, anchor, requests) ==> Matches(e, f) && After(f, anchor, e)
    decreases |requests|
  {
    if requests == [] {
    } else {
      PageMeaning(f, anchor, requests[0].limit, requests[0].log);
      var page := PageOf(f, anchor, requests[0].limit, requests[0].log);
      if page.next.Some? && Anchorable(f, page.next.value, wire) {
        var last := page.next.value;
        var rest := Delivered(f, wire, Some(KeyOf(last)), requests[1..]);
        WalkIsMonotone(f, wire, Some(KeyOf(last)), requests[1..]);
        ChainConcat(f, page.list, rest);
        assert last in page.list;
        forall e | e in rest ensures After(f, anchor, e) { AfterTransitive(f, anchor, last, e); }
      }
    }
  }

  /** A completed walk has delivered every matching entry that every page could see. */
  lemma {:induction false} WalkIsComplete(f: Filter, wire: Cursor -> nat, anchor: Option<Anchor>,
                                          requests: seq<Request>, e: LogEntry)
    requires GoodRequests(requests) && Completes(f, wire, anchor, requests)
    requires Matches(e, f) && After(f, anchor, e)
    requires forall i :: 0 <= i < |requests| ==> e in requests[i].log
    ensures e in Delivered(f, wire, anchor, requests)
    decreases |requests|
  {
    PageMeaning(f, anchor, requests[0].limit, requests[0].log);
    var page := PageOf(f, anchor, requests[0].limit, requests[0].log);
    assert e in requests[0].log;
    if e in page.list {
    } else {
      WalkIsComplete(f, wire, Some(KeyOf(page.next.value)), requests[1..], e);
    }
  }

  /**
   If no page of a completed walk was cut, every matching entry that was in the log files throughout has been
   delivered, whatever was added and removed besides, the anchor entries included.
   */
  lemma UncutWalkIsComplete(f: Filter, wire: Cursor -> nat, anchor: Option<Anchor>, requests: seq<Request>,
                            files: seq<seq<LogFile>>, alive: seq<nat>, e: LogEntry)
    requires GoodRequests(requests) && Completes(f, wire, anchor, requests) && |files| == |alive| == |requests|
    requires Matches(e, f) && After(f, anchor, e)
    requires forall i :: 0 <= i < |requests| ==>
               UncutRequest(requests[i], files[i], alive[i]) && e in AllEntries(files[i])
    ensures e in Delivered(f, wire, anchor, requests)
  {
    forall i | 0 <= i < |requests| ensures e in requests[i].log {
      assert UncutRequest(requests[i], files[i], alive[i]);
      UncutIsComplete(files[i], true, alive[i]);
    }
    WalkIsComplete(f, wire, anchor, requests, e);
  }

  /** The page was served from a reading of these files that left nothing out. */
  ghost predicate UncutRequest(request: Request, files: seq<LogFile>, alive: nat) {
    && (forall k :: 0 <= k < |files| ==> Faithful(files[k])) && !ReadAll(files, true, alive).cut
    && request.log == ReadAll(files, true, alive).log
  }

  // ---- An unchanged log ---------------------------------------------------------------------

  lemma NoMembers(s: seq<LogEntry>)
    ensures s == [] <==> forall e :: e !in s
  {
    if s != [] { assert s[0] in s; }
  }

  lemma {:induction false} ChainUnique(ascending: bool, a: seq<LogEntry>, b: seq<LogEntry>)
    requires Chain(ascending, a) && Chain(ascending, b)
    requires forall e :: e in a <==> e in b
    ensures a == b
    decreases |a|
  {
    NoMembers(a);
    NoMembers(b);
    if a == [] {
    } else {
      ChainHeads(ascending, a, b);
      assert a == [a[0]] + a[1..] && b == [b[0]] + b[1..];
      forall e ensures e in a[1..] <==> e in b[1..] {
        ChainTail(ascending, a, e);
        ChainTail(ascending, b, e);
      }
      ChainUnique(ascending, a[1..], b[1..]);
    }
  }

  lemma ChainHeads(ascending: bool, a: seq<LogEntry>, b: seq<LogEntry>)
    requires a != [] && b != [] && Chain(ascending, a) && Chain(ascending, b)
    requires forall e :: e in a <==> e in b
    ensures a[0] == b[0]
  {
    assert a[0] in b && b[0] in a;
    var i :| 0 <= i < |b| && b[i] == a[0];
    var j :| 0 <= j < |a| && a[j] == b[0];
    if i > 0 && j > 0 { KeyLessTotal(KeyOf(a[0]), KeyOf(b[0])); }
  }

  lemma ChainTail(ascending: bool, a: seq<LogEntry>, e: LogEntry)
    requires a != [] && Chain(ascending, a)
    ensures e in a[1..] <==> e in a && e != a[0]
  {
    KeyLessTotal(KeyOf(a[0]), KeyOf(a[0]));
    if e in a && e != a[0] {
      var i :| 0 <= i < |a| && a[i] == e;
      assert a[1..][i - 1] == e;
    }
  }

  /** The next page of the same log starts right behind the last one. */
  lemma RemainingAdvances(f: Filter, anchor: Option<Anchor>, sorted: seq<LogEntry>, n: nat)
    requires Chain(f.ascending, sorted) && 0 < n <= |Remaining(f, anchor, sorted)|
    ensures var rest := Remaining(f, anchor, sorted);
            Remaining(f, Some(KeyOf(rest[n - 1])), sorted) == rest[n..]
  {
    var rest := Remaining(f, anchor, sorted);
    var last := rest[n - 1];
    RemainingMembers(f, anchor, sorted);
    RemainingMembers(f, Some(KeyOf(last)), sorted);
    forall e ensures e in Remaining(f, Some(KeyOf(last)), sorted) <==> e in rest[n..] {
      assert last in rest;
      if e in sorted && Precedes(f.ascending, KeyOf(last), KeyOf(e)) {
        if anchor.Some? { PrecedesTransitive(f.ascending, anchor.value, KeyOf(last), KeyOf(e)); }
        var i :| 0 <= i < |rest| && rest[i] == e;
        BehindLast(f, rest, n, i);
      }
      if e in rest[n..] {
        var i :| 0 <= i < |rest[n..]| && rest[n..][i] == e;
        assert rest[n + i] == e;
      }
    }
    ChainUnique(f.ascending, Remaining(f, Some(KeyOf(last)), sorted), rest[n..]);
  }

  lemma BehindLast(f: Filter, rest: seq<LogEntry>, n: nat, i: nat)
    requires Chain(f.ascending, rest) && 0 < n <= |rest| && i < |rest|
    requires Precedes(f.ascending, KeyOf(rest[n - 1]), KeyOf(rest[i]))
    ensures rest[i] in rest[n..]
  {
    KeyLessTotal(KeyOf(rest[n - 1]), KeyOf(rest[i]));
    if i >= n { assert rest[n..][i - n] == rest[i]; }
  }

  function TotalLimit(requests: seq<Request>): nat {
    if requests == [] then 0 else requests[0].limit + TotalLimit(requests[1..])
  }

  lemma FixedPage(f: Filter, wire: Cursor -> nat, anchor: Option<Anchor>, log: seq<LogEntry>, limit: nat)
    requires DistinctIdentities(log) && 0 < limit < |Remaining(f, anchor, Sorted(f, log))|
    requires forall e :: e in log && Matches(e, f) ==> Anchorable(f, e, wire)
    ensures var rest := Remaining(f, anchor, Sorted(f, log));
            && PageOf(f, anchor, limit, log) == Page(rest[..limit], Some(rest[limit - 1]))
            && Anchorable(f, rest[limit - 1], wire)
            && Remaining(f, Some(KeyOf(rest[limit - 1])), Sorted(f, log)) == rest[limit..]
  {
    var rest := Remaining(f, anchor, Sorted(f, log));
    SortedIsChain(f, log);
    RemainingMembers(f, anchor, Sorted(f, log));
    assert rest[limit - 1] in rest;
    RemainingAdvances(f, anchor, Sorted(f, log), limit);
  }

  lemma DeliveredStep(f: Filter, wire: Cursor -> nat, anchor: Option<Anchor>, requests: seq<Request>, page: Page)
    requires GoodRequests(requests) && requests != []
    requires page == PageOf(f, anchor, requests[0].limit, requests[0].log)
    requires page.next.Some? && Anchorable(f, page.next.value, wire)
    ensures Delivered(f, wire, anchor, requests) ==
            page.list + Delivered(f, wire, Some(KeyOf(page.next.value)), requests[1..])
    ensures Completes(f, wire, anchor, requests) <==> Completes(f, wire, Some(KeyOf(page.next.value)), requests[1..])
  {
  }

  /** On an unchanged log the pages concatenate to exactly the sorted list of matches behind the anchor. */
  lemma {:induction false} WalkOfFixedLog(f: Filter, wire: Cursor -> nat, anchor: Option<Anchor>, log: seq<LogEntry>,
                                          requests: seq<Request>)
    requires GoodRequests(requests) && requests != []
    requires forall i :: 0 <= i < |requests| ==> requests[i].log == log
    requires forall e :: e in log && Matches(e, f) ==> Anchorable(f, e, wire)
    requires |Remaining(f, anchor, Sorted(f, log))| <= TotalLimit(requests)
    ensures Delivered(f, wire, anchor, requests) == Remaining(f, anchor, Sorted(f, log))
    ensures Completes(f, wire, anchor, requests)
    decreases |requests|
  {
    var rest, limit := Remaining(f, anchor, Sorted(f, log)), requests[0].limit;
    assert requests[0].log == log;
    if |rest| <= limit {
    } else {
      FixedPage(f, wire, anchor, log, limit);
      DeliveredStep(f, wire, anchor, requests, PageOf(f, anchor, limit, log));
      assert requests[1..] != [];
      WalkOfFixedLog(f, wire, Some(KeyOf(rest[limit - 1])), log, requests[1..]);
      assert rest == rest[..limit] + rest[limit..];
    }
  }

  /** From the start, that is the whole sorted match list. */
  lemma {:induction false} NothingSkipped(f: Filter, sorted: seq<LogEntry>)
    ensures Remaining(f, None, sorted) == sorted
  {
    if sorted == [] {
    } else {
      NothingSkipped(f, sorted[1..]);
    }
  }

  /** On an unchanged log the pages of a whole walk concatenate to the sorted match list. */
  lemma WholeWalk(f: Filter, wire: Cursor -> nat, log: seq<LogEntry>, requests: seq<Request>)
    requires GoodRequests(requests) && requests != []
    requires forall i :: 0 <= i < |requests| ==> requests[i].log == log
    requires forall e :: e in log && Matches(e, f) ==> Anchorable(f, e, wire)
    requires |Sorted(f, log)| <= TotalLimit(requests)
    ensures Delivered(f, wire, None, requests) == Sorted(f, log) && Completes(f, wire, None, requests)
  {
    NothingSkipped(f, Sorted(f, log));
    WalkOfFixedLog(f, wire, None, log, requests);
  }
}
