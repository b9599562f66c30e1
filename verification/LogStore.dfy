/** The runtime log directory: one active file, rotated and compressed history, retention by age, count and size. */
module LogStore {
  import opened Common
  import opened Sorting

  const MIB: nat := 1048576
  const DAY: nat := 86400000000000

  /** Severities 0 to 3 stand for debug, info, warn and error. */
  datatype Policy = Policy(level: int, maxFileMiB: int, maxBackups: int, retentionDays: int, maxTotalMiB: int) {
    /** Policy.Validate */
    predicate Valid() {
      && 0 <= level <= 3 && 1 <= maxFileMiB <= 256 && 1 <= maxBackups <= 100 && 1 <= retentionDays <= 365
      && 32 <= maxTotalMiB <= 10240 && maxFileMiB <= maxTotalMiB
    }

    function FileBytes(): int { maxFileMiB * MIB }

    function TotalBytes(): int { maxTotalMiB * MIB }
  }

  /** DefaultPolicy */
  function DefaultPolicy(production: bool): (p: Policy)
    ensures p.Valid()
  {
    Policy(if production then 1 else 0, 20, 10, 30, 500)
  }

  /** A sanitised event: its severity, its length in bytes and its text. */
  datatype Event = Event(severity: int, size: nat, text: string)

  datatype HistoryFile = HistoryFile(stamp: int, sequence: nat, mod: int, size: nat, events: seq<Event>)

  /** The directory and the manager's fields. History is listed in rotation order. */
  datatype Store = Store(policy: Policy, sequence: nat, active: seq<Event>, size: nat, history: seq<HistoryFile>)

  function Bytes(events: seq<Event>): nat {
    if events == [] then 0 else Bytes(events[..|events| - 1]) + events[|events| - 1].size
  }

  function FileBytes(files: seq<HistoryFile>): nat {
    if files == [] then 0 else files[0].size + FileBytes(files[1..])
  }

  function Events(files: seq<HistoryFile>): seq<Event> {
    if files == [] then [] else files[0].events + Events(files[1..])
  }

  /** Everything still on disk, oldest first. */
  function Held(s: Store): seq<Event> { Events(s.history) + s.active }

  // ---- Retention ----------------------------------------------------------------------------

  predicate ModLess(a: HistoryFile, b: HistoryFile) { a.mod < b.mod }

  predicate Excess(files: seq<HistoryFile>, active: nat, p: Policy, now: int)
    requires files != []
  {
    files[0].mod < now - p.retentionDays * DAY || |files| > p.maxBackups || active + FileBytes(files) > p.TotalBytes()
  }

  /** The cleanup loop on the files in the order of the directory listing. */
  function Trim(files: seq<HistoryFile>, active: nat, p: Policy, now: int): (kept: seq<HistoryFile>)
    ensures |kept| <= |files|
  {
    if files != [] && Excess(files, active, p, now) then Trim(files[1..], active, p, now) else files
  }

  ghost predicate Timed(files: seq<HistoryFile>) {
    forall i, j :: 0 <= i < j < |files| ==> files[i].mod < files[j].mod
  }

  /**
   Retention removes the shortest prefix of the order whose removal brings the age of the first file, the count and
   the size within the policy: each removed file was too old, or there were too many files or bytes from it on.
   */
  lemma {:induction false} TrimMeaning(files: seq<HistoryFile>, active: nat, p: Policy, now: int) returns (k: nat)
    ensures k <= |files| && Trim(files, active, p, now) == files[k..]
    ensures forall j :: 0 <= j < k ==>
              || files[j].mod < now - p.retentionDays * DAY
              || |files| - j > p.maxBackups || active + FileBytes(files[j..]) > p.maxTotalMiB * MIB
    ensures k < |files| ==>
              && |files| - k <= p.maxBackups && active + FileBytes(files[k..]) <= p.maxTotalMiB * MIB
              && files[k].mod >= now - p.retentionDays * DAY
  {
    if files != [] && Excess(files, active, p, now) {
      var rest := TrimMeaning(files[1..], active, p, now);
      k := rest + 1;
      assert files[1..][rest..] == files[k..];
      forall j | 0 <= j < k ensures Excess(files[j..], active, p, now) {
        if j == 0 { assert files[0..] == files; } else { assert files[1..][j - 1..] == files[j..]; }
      }
      assert forall j :: 0 <= j < k ==> Excess(files[j..], active, p, now) && files[j..][0] == files[j];
    } else {
      k := 0;
      assert files[0..] == files;
    }
  }

  /** In an order by modification time nothing that is kept has outlived the retention period. */
  lemma KeptAreYoung(order: seq<HistoryFile>, active: nat, p: Policy, now: int, i: nat)
    requires Ascending(ModLess, order) && i < |Trim(order, active, p, now)|
    ensures Trim(order, active, p, now)[i].mod >= now - p.retentionDays * DAY
  {
    var k := TrimMeaning(order, active, p, now);
    if i > 0 { assert !ModLess(order[k + i], order[k]); }
  }

  lemma KeptFit(order: seq<HistoryFile>, active: nat, p: Policy, now: int)
    requires p.Valid()
    ensures FileBytes(Trim(order, active, p, now)) <= p.TotalBytes()
  {
    var k := TrimMeaning(order, active, p, now);
  }

  // ---- Removing files from the directory ----------------------------------------------------

  function Remove(files: seq<HistoryFile>, file: HistoryFile): seq<HistoryFile> {
    if files == [] then [] else if files[0] == file then files[1..] else [files[0]] + Remove(files[1..], file)
  }

  function RemoveAll(files: seq<HistoryFile>, gone: seq<HistoryFile>): seq<HistoryFile>
    decreases |gone|
  {
    if gone == [] then files else RemoveAll(Remove(files, gone[0]), gone[1..])
  }

  lemma HeadMembers(files: seq<HistoryFile>)
    requires files != []
    ensures files[0] in files && files[0] in multiset(files)
    ensures multiset(files[1..]) == multiset(files) - multiset{files[0]}
  {
    assert files == [files[0]] + files[1..];
  }

  lemma {:induction false} RemoveMembers(files: seq<HistoryFile>, file: HistoryFile)
    requires file in files
    ensures multiset(Remove(files, file)) == multiset(files) - multiset{file}
  {
    assert files == [files[0]] + files[1..];
    if files[0] == file {
    } else {
      RemoveMembers(files[1..], file);
    }
  }

  lemma RemoveFirst(files: seq<HistoryFile>, order: seq<HistoryFile>)
    requires multiset(files) == multiset(order) && order != []
    ensures multiset(Remove(files, order[0])) == multiset(order[1..])
  {
    HeadMembers(order);
    SameMembers(files, order);
    RemoveMembers(files, order[0]);
  }

  lemma SliceTail(order: seq<HistoryFile>, n: nat)
    requires 0 < n <= |order|
    ensures order[..n][0] == order[0] && order[..n][1..] == order[1..][..n - 1] && order[1..][n - 1..] == order[n..]
  {
  }

  /** What remains after removing the first n files of the order is the rest of the order. */
  lemma {:induction false} RemoveAllMembers(files: seq<HistoryFile>, order: seq<HistoryFile>, n: nat)
    requires multiset(files) == multiset(order) && n <= |order|
    ensures multiset(RemoveAll(files, order[..n])) == multiset(order[n..])
    decreases n
  {
    if n == 0 {
      assert order[0..] == order;
    } else {
      RemoveFirst(files, order);
      RemoveAllMembers(Remove(files, order[0]), order[1..], n - 1);
      SliceTail(order, n);
    }
  }

  lemma {:induction false} BytesWithout(files: seq<HistoryFile>, file: HistoryFile)
    requires file in files
    ensures FileBytes(files) == file.size + FileBytes(Remove(files, file))
  {
    if files[0] == file {
    } else {
      BytesWithout(files[1..], file);
    }
  }

  lemma {:induction false} BytesPermute(a: seq<HistoryFile>, b: seq<HistoryFile>)
    requires multiset(a) == multiset(b)
    ensures FileBytes(a) == FileBytes(b)
    decreases |a|
  {
    SameMembers(a, b);
    if a == [] {
    } else {
      HeadMembers(a);
      RemoveMembers(b, a[0]);
      BytesWithout(b, a[0]);
      BytesPermute(a[1..], Remove(b, a[0]));
    }
  }

  /** Removing the files of a prefix of the list itself leaves the rest of it. */
  lemma {:induction false} RemovePrefix(files: seq<HistoryFile>, n: nat)
    requires n <= |files|
    ensures RemoveAll(files, files[..n]) == files[n..]
    decreases n
  {
    if n == 0 {
      assert files[0..] == files;
    } else {
      RemovePrefix(files[1..], n - 1);
      SliceTail(files, n);
    }
  }

  // ---- Operations ---------------------------------------------------------------------------

  /** The files cleanup removes when the directory listing came in the given order. */
  function Gone(s: Store, order: seq<HistoryFile>, now: int): seq<HistoryFile> {
    order[..|order| - |Trim(order, s.size, s.policy, now)|]
  }

  /** cleanupLocked */
  function Cleaned(s: Store, order: seq<HistoryFile>, now: int): Store {
    s.(history := RemoveAll(s.history, Gone(s, order, now)))
  }

  /** Cleanup removes exactly the shortest prefix of the order found, and touches nothing but the history. */
  lemma CleanedMeaning(s: Store, order: seq<HistoryFile>, now: int) returns (k: nat)
    requires IsSortOf(ModLess, s.history, order)
    ensures k <= |order| && multiset(Cleaned(s, order, now).history) == multiset(order[k..])
    ensures forall j :: 0 <= j < k ==>
              || order[j].mod < now - s.policy.retentionDays * DAY
              || |order| - j > s.policy.maxBackups || s.size + FileBytes(order[j..]) > s.policy.maxTotalMiB * MIB
    ensures Cleaned(s, order, now) == s.(history := Cleaned(s, order, now).history)
  {
    k := TrimMeaning(order, s.size, s.policy, now);
    RemoveAllMembers(s.history, order, k);
  }

  /** The active file has become the newest history file; `packed` is its compressed size. */
  function Moved(s: Store, now: int, packed: nat): Store {
    s.(sequence := s.sequence + 1, active := [], size := 0,
       history := s.history + [HistoryFile(now, s.sequence + 1, now, packed, s.active)])
  }

  /** rotateLocked */
  function Rotated(s: Store, now: int, packed: nat, order: seq<HistoryFile>): Store {
    Cleaned(Moved(s, now, packed), order, now)
  }

  predicate Accepts(p: Policy, e: Event) { e.severity >= p.level }

  predicate Rotates(s: Store, e: Event) { s.size > 0 && s.size + e.size > s.policy.FileBytes() }

  function Appended(s: Store, e: Event): Store { s.(active := s.active + [e], size := s.size + e.size) }

  /** Write */
  function Written(s: Store, e: Event, now: int, packed: nat, order: seq<HistoryFile>): Store {
    if !Accepts(s.policy, e) then s
    else Appended(if Rotates(s, e) then Rotated(s, now, packed, order) else s, e)
  }

  /** Every operation carries the order in which cleanup, if it runs, finds the history files. */
  datatype Op =
    | Write(event: Event, now: int, packed: nat, order: seq<HistoryFile>)
    | Tick(now: int, order: seq<HistoryFile>)
    | ApplyPolicy(policy: Policy, now: int, order: seq<HistoryFile>)
    | Restart(production: bool, torn: bool, files: seq<HistoryFile>, now: int, order: seq<HistoryFile>)

  /** What a process leaves behind; a torn rotation has renamed the active file but not compressed it. */
  function Left(s: Store, torn: bool): Store { if torn then Moved(s, 0, 0) else s }

  /** recoverAndOpen before cleanup: `files` is the history after files left uncompressed have been compressed. */
  function Restarted(s: Store, production: bool, torn: bool, files: seq<HistoryFile>): Store {
    var left := Left(s, torn);
    Store(DefaultPolicy(production), 0, left.active, Bytes(left.active), files)
  }

  /** Compressing a file changes its time and its size, not its events. */
  ghost predicate SameEvents(a: seq<HistoryFile>, b: seq<HistoryFile>) {
    |a| == |b| && forall i :: 0 <= i < |a| ==> a[i].events == b[i].events
  }

  function Step(s: Store, op: Op): Store {
    match op
    case Write(e, now, packed, order) => Written(s, e, now, packed, order)
    case Tick(now, order) => Cleaned(s, order, now)
    case ApplyPolicy(p, now, order) => if p.Valid() then Cleaned(s.(policy := p), order, now) else s
    case Restart(production, torn, files, now, order) => Cleaned(Restarted(s, production, torn, files), order, now)
  }

  predicate RotatesOn(s: Store, op: Op) { op.Write? && Accepts(s.policy, op.event) && Rotates(s, op.event) }

  /** The order is one the sort by modification time may return for the files cleanup finds. */
  ghost predicate Fits(s: Store, op: Op) {
    && (RotatesOn(s, op) ==> IsSortOf(ModLess, Moved(s, op.now, op.packed).history, op.order))
    && (op.Tick? || op.ApplyPolicy? ==> IsSortOf(ModLess, s.history, op.order))
    && (op.Restart? ==> SameEvents(Left(s, op.torn).history, op.files) && IsSortOf(ModLess, op.files, op.order))
  }

  function AcceptedBy(s: Store, op: Op): seq<Event> {
    if op.Write? && Accepts(s.policy, op.event) then [op.event] else []
  }

  // ---- The log on disk is part of what was accepted, in order -------------------------------

  /** Part is left when some elements of whole are struck out. */
  ghost predicate Sub(part: seq<Event>, whole: seq<Event>)
    decreases |whole|
  {
    part == [] ||
    (whole != [] && (Sub(part, whole[1..]) || (part[0] == whole[0] && Sub(part[1..], whole[1..]))))
  }

  lemma {:induction false} SubAppend(a: seq<Event>, b: seq<Event>, c: seq<Event>, d: seq<Event>)
    requires Sub(a, b) && Sub(c, d)
    ensures Sub(a + c, b + d)
    decreases |b|
  {
    if b == [] {
      assert a + c == c && b + d == d;
    } else {
      assert (b + d)[0] == b[0] && (b + d)[1..] == b[1..] + d;
      if Sub(a, b[1..]) {
        SubAppend(a, b[1..], c, d);
      } else {
        SubAppend(a[1..], b[1..], c, d);
        assert (a + c)[0] == a[0] && (a + c)[1..] == a[1..] + c;
      }
    }
  }

  lemma {:induction false} SubSelf(a: seq<Event>)
    ensures Sub(a, a)
  {
    if a == [] {
    } else {
      SubSelf(a[1..]);
    }
  }

  lemma {:induction false} SubTransitive(a: seq<Event>, b: seq<Event>, c: seq<Event>)
    requires Sub(a, b) && Sub(b, c)
    ensures Sub(a, c)
    decreases |c|
  {
    if a == [] || b == [] {
    } else if Sub(b, c[1..]) {
      SubTransitive(a, b, c[1..]);
    } else if Sub(a, b[1..]) {
      SubTransitive(a, b[1..], c[1..]);
    } else {
      SubTransitive(a[1..], b[1..], c[1..]);
    }
  }

  /** Nothing occurs in the part more often than in the whole. */
  lemma {:induction false} SubCounts(part: seq<Event>, whole: seq<Event>)
    requires Sub(part, whole)
    ensures multiset(part) <= multiset(whole)
    decreases |whole|
  {
    if part == [] {
    } else {
      assert whole == [whole[0]] + whole[1..];
      if Sub(part, whole[1..]) {
        SubCounts(part, whole[1..]);
      } else {
        SubCounts(part[1..], whole[1..]);
        assert part == [part[0]] + part[1..];
      }
    }
  }

  lemma {:induction false} RemoveIsSub(files: seq<HistoryFile>, file: HistoryFile)
    ensures Sub(Events(Remove(files, file)), Events(files))
  {
    if files == [] {
    } else {
      var first, rest := files[0], files[1..];
      SubSelf(Events(rest));
      SubSelf(first.events);
      if first == file {
        SubAppend([], first.events, Events(rest), Events(rest));
        assert [] + Events(rest) == Events(rest);
      } else {
        RemoveIsSub(rest, file);
        SubAppend(first.events, first.events, Events(Remove(rest, file)), Events(rest));
        assert ([first] + Remove(rest, file))[1..] == Remove(rest, file);
      }
    }
  }

  lemma {:induction false} RemoveAllIsSub(files: seq<HistoryFile>, gone: seq<HistoryFile>)
    ensures Sub(Events(RemoveAll(files, gone)), Events(files))
    decreases |gone|
  {
    if gone == [] {
      SubSelf(Events(files));
    } else {
      RemoveIsSub(files, gone[0]);
      RemoveAllIsSub(Remove(files, gone[0]), gone[1..]);
      SubTransitive(Events(RemoveAll(files, gone)), Events(Remove(files, gone[0])), Events(files));
    }
  }

  /** What cleanup finds: everything of the invariant but the size of the history. */
  ghost predicate Settled(s: Store, accepted: seq<Event>) {
    s.policy.Valid() && s.size == Bytes(s.active) && Sub(Held(s), accepted)
  }

  ghost predicate Inv(s: Store, accepted: seq<Event>) {
    Settled(s, accepted) && FileBytes(s.history) <= s.policy.TotalBytes()
  }

  lemma CleanedBytes(s: Store, order: seq<HistoryFile>, now: int)
    requires s.policy.Valid() && IsSortOf(ModLess, s.history, order)
    ensures FileBytes(Cleaned(s, order, now).history) <= s.policy.TotalBytes()
  {
    var k := TrimMeaning(order, s.size, s.policy, now);
    RemoveAllMembers(s.history, order, k);
    BytesPermute(Cleaned(s, order, now).history, order[k..]);
    KeptFit(order, s.size, s.policy, now);
  }

  lemma CleanedHeld(s: Store, order: seq<HistoryFile>, now: int)
    ensures Sub(Held(Cleaned(s, order, now)), Held(s))
  {
    RemoveAllIsSub(s.history, Gone(s, order, now));
    SubSelf(s.active);
    SubAppend(Events(Cleaned(s, order, now).history), Events(s.history), s.active, s.active);
  }

  /** Cleanup in any order by modification time keeps what is held in order and brings the size down. */
  lemma CleanedInv(s: Store, accepted: seq<Event>, order: seq<HistoryFile>, now: int)
    requires Settled(s, accepted) && IsSortOf(ModLess, s.history, order)
    ensures Inv(Cleaned(s, order, now), accepted)
  {
    CleanedBytes(s, order, now);
    CleanedHeld(s, order, now);
    SubTransitive(Held(Cleaned(s, order, now)), Held(s), accepted);
  }

  lemma {:induction false} EventsAppend(files: seq<HistoryFile>, file: HistoryFile)
    ensures Events(files + [file]) == Events(files) + file.events
  {
    if files == [] {
      assert [file][1..] == [];
    } else {
      EventsAppend(files[1..], file);
      assert (files + [file])[1..] == files[1..] + [file];
    }
  }

  /** Moving the active file into the history keeps everything held, in order. */
  lemma MovedHeld(s: Store, now: int, packed: nat)
    ensures Held(Moved(s, now, packed)) == Held(s)
  {
    EventsAppend(s.history, HistoryFile(now, s.sequence + 1, now, packed, s.active));
  }

  lemma {:induction false} SameEventsHeld(a: seq<HistoryFile>, b: seq<HistoryFile>)
    requires SameEvents(a, b)
    ensures Events(a) == Events(b)
  {
    if a == [] {
    } else {
      SameEventsHeld(a[1..], b[1..]);
    }
  }

  /** Recovery, after a torn rotation too, keeps everything held, in order. */
  lemma RestartedHeld(s: Store, production: bool, torn: bool, files: seq<HistoryFile>)
    requires SameEvents(Left(s, torn).history, files)
    ensures Held(Restarted(s, production, torn, files)) == Held(s)
  {
    if torn { MovedHeld(s, 0, 0); }
    SameEventsHeld(Left(s, torn).history, files);
  }

  lemma RotatedInv(s: Store, accepted: seq<Event>, now: int, packed: nat, order: seq<HistoryFile>)
    requires Inv(s, accepted) && IsSortOf(ModLess, Moved(s, now, packed).history, order)
    ensures Inv(Rotated(s, now, packed, order), accepted)
  {
    MovedHeld(s, now, packed);
    CleanedInv(Moved(s, now, packed), accepted, order, now);
  }

  lemma AppendedHeld(s: Store, e: Event)
    ensures Held(Appended(s, e)) == Held(s) + [e] && Bytes(s.active + [e]) == Bytes(s.active) + e.size
  {
    var t := Appended(s, e);
    assert t.active[..|t.active| - 1] == s.active;
  }

  lemma AppendedInv(s: Store, accepted: seq<Event>, e: Event)
    requires Inv(s, accepted)
    ensures Inv(Appended(s, e), accepted + [e])
  {
    AppendedHeld(s, e);
    SubSelf([e]);
    SubAppend(Held(s), accepted, [e], [e]);
  }

  lemma WrittenInv(s: Store, accepted: seq<Event>, op: Op)
    requires op.Write? && Inv(s, accepted) && Fits(s, op)
    ensures Inv(Step(s, op), accepted + AcceptedBy(s, op))
  {
    if !Accepts(s.policy, op.event) {
      assert accepted + [] == accepted;
    } else if Rotates(s, op.event) {
      RotatedInv(s, accepted, op.now, op.packed, op.order);
      AppendedInv(Rotated(s, op.now, op.packed, op.order), accepted, op.event);
    } else {
      AppendedInv(s, accepted, op.event);
    }
  }

  /** Whatever the clock says and however the listing orders files of equal age, every operation keeps the invariant. */
  lemma StepInv(s: Store, accepted: seq<Event>, op: Op)
    requires Inv(s, accepted) && Fits(s, op)
    ensures Inv(Step(s, op), accepted + AcceptedBy(s, op))
  {
    assert accepted + [] == accepted;
    match op
    case Write(e, now, packed, order) => WrittenInv(s, accepted, op);
    case Tick(now, order) => CleanedInv(s, accepted, order, now);
    case ApplyPolicy(p, now, order) => if p.Valid() { CleanedInv(s.(policy := p), accepted, order, now); }
    case Restart(production, torn, files, now, order) =>
      RestartedHeld(s, production, torn, files);
      CleanedInv(Restarted(s, production, torn, files), accepted, order, now);
  }

  lemma WrittenSize(s: Store, op: Op)
    requires op.Write? && Accepts(s.policy, op.event)
    ensures var t := Step(s, op);
            t.policy == s.policy && t.size == if Rotates(s, op.event) then op.event.size else s.size + op.event.size
  {
  }

  /** After an accepted write the directory holds at most the total limit plus one active file. */
  lemma WriteBound(s: Store, accepted: seq<Event>, op: Op)
    requires Inv(s, accepted) && Fits(s, op) && op.Write? && Accepts(s.policy, op.event)
    ensures var t := Step(s, op);
            FileBytes(t.history) + t.size <=
            s.policy.TotalBytes()
            + (if op.event.size <= s.policy.FileBytes() then s.policy.FileBytes() else op.event.size)
  {
    StepInv(s, accepted, op);
    WrittenSize(s, op);
  }

  // ---- With increasing modification times it is a suffix ------------------------------------

  ghost predicate Suffix(part: seq<Event>, whole: seq<Event>) {
    |part| <= |whole| && part == whole[|whole| - |part|..]
  }

  /** A rotation gives the new file a later modification time than every older file, and recovery keeps the order. */
  ghost predicate Timely(s: Store, op: Op) {
    && (RotatesOn(s, op) ==> forall i :: 0 <= i < |s.history| ==> s.history[i].mod < op.now)
    && (op.Restart? ==> Timed(op.files))
  }

  ghost predicate Strict(s: Store, accepted: seq<Event>) { Timed(s.history) && Suffix(Held(s), accepted) }

  lemma SuffixOfSuffix(a: seq<Event>, b: seq<Event>, c: seq<Event>)
    requires Suffix(a, b) && Suffix(b, c)
    ensures Suffix(a, c)
  {
    assert b[|b| - |a|..] == c[|c| - |a|..];
  }

  lemma {:induction false} EventsSuffix(files: seq<HistoryFile>, k: nat)
    requires k <= |files|
    ensures Suffix(Events(files[k..]), Events(files))
    decreases k
  {
    if k == 0 {
      assert files[0..] == files;
    } else {
      EventsSuffix(files[1..], k - 1);
      assert files[1..][k - 1..] == files[k..];
      assert Suffix(Events(files[1..]), Events(files));
      SuffixOfSuffix(Events(files[k..]), Events(files[1..]), Events(files));
    }
  }

  lemma SuffixAppend(a: seq<Event>, b: seq<Event>, c: seq<Event>)
    requires Suffix(a, b)
    ensures Suffix(a + c, b + c)
  {
    assert b[|b| - |a|..] + c == (b + c)[|b| - |a|..];
  }

  lemma CleanedStrict(s: Store, accepted: seq<Event>, order: seq<HistoryFile>, now: int)
    requires Strict(s, accepted) && IsSortOf(ModLess, s.history, order)
    ensures Strict(Cleaned(s, order, now), accepted)
  {
    var t := Cleaned(s, order, now);
    TimedSortsToItself(s.history, order);
    var k := TrimMeaning(order, s.size, s.policy, now);
    RemovePrefix(s.history, k);
    assert t.history == s.history[k..];
    EventsSuffix(s.history, k);
    SuffixAppend(Events(t.history), Events(s.history), s.active);
    SuffixOfSuffix(Held(t), Held(s), accepted);
  }

  lemma MovedTimed(files: seq<HistoryFile>, file: HistoryFile)
    requires Timed(files) && forall i :: 0 <= i < |files| ==> files[i].mod < file.mod
    ensures Timed(files + [file])
  {
  }

  lemma RotatedStrict(s: Store, accepted: seq<Event>, now: int, packed: nat, order: seq<HistoryFile>)
    requires Strict(s, accepted) && IsSortOf(ModLess, Moved(s, now, packed).history, order)
    requires forall i :: 0 <= i < |s.history| ==> s.history[i].mod < now
    ensures Strict(Rotated(s, now, packed, order), accepted)
  {
    MovedHeld(s, now, packed);
    MovedTimed(s.history, HistoryFile(now, s.sequence + 1, now, packed, s.active));
    CleanedStrict(Moved(s, now, packed), accepted, order, now);
  }

  lemma AppendedStrict(s: Store, accepted: seq<Event>, e: Event)
    requires Strict(s, accepted)
    ensures Strict(Appended(s, e), accepted + [e])
  {
    AppendedHeld(s, e);
    SuffixAppend(Held(s), accepted, [e]);
  }

  lemma WrittenStrict(s: Store, accepted: seq<Event>, op: Op)
    requires op.Write? && Strict(s, accepted) && Fits(s, op) && Timely(s, op)
    ensures Strict(Step(s, op), accepted + AcceptedBy(s, op))
  {
    if !Accepts(s.policy, op.event) {
      assert accepted + [] == accepted;
    } else if Rotates(s, op.event) {
      RotatedStrict(s, accepted, op.now, op.packed, op.order);
      AppendedStrict(Rotated(s, op.now, op.packed, op.order), accepted, op.event);
    } else {
      AppendedStrict(s, accepted, op.event);
    }
  }

  lemma StepStrict(s: Store, accepted: seq<Event>, op: Op)
    requires Strict(s, accepted) && Fits(s, op) && Timely(s, op)
    ensures Strict(Step(s, op), accepted + AcceptedBy(s, op))
  {
    assert accepted + [] == accepted;
    match op
    case Write(e, now, packed, order) => WrittenStrict(s, accepted, op);
    case Tick(now, order) => CleanedStrict(s, accepted, order, now);
    case ApplyPolicy(p, now, order) => if p.Valid() { CleanedStrict(s.(policy := p), accepted, order, now); }
    case Restart(production, torn, files, now, order) =>
      RestartedHeld(s, production, torn, files);
      CleanedStrict(Restarted(s, production, torn, files), accepted, order, now);
  }

  // ---- Runs ---------------------------------------------------------------------------------

  function Run(s: Store, ops: seq<Op>): Store
    decreases |ops|
  {
    if ops == [] then s else Run(Step(s, ops[0]), ops[1..])
  }

  function Stream(s: Store, ops: seq<Op>): seq<Event>
    decreases |ops|
  {
    if ops == [] then [] else AcceptedBy(s, ops[0]) + Stream(Step(s, ops[0]), ops[1..])
  }

  ghost predicate AllFit(s: Store, ops: seq<Op>)
    decreases |ops|
  {
    ops == [] || (Fits(s, ops[0]) && AllFit(Step(s, ops[0]), ops[1..]))
  }

  ghost predicate AllTimely(s: Store, ops: seq<Op>)
    decreases |ops|
  {
    ops == [] || (Timely(s, ops[0]) && AllTimely(Step(s, ops[0]), ops[1..]))
  }

  /** Over every run, with any clock, policy changes and restarts, the files hold accepted events in order. */
  lemma {:induction false} RunInv(s: Store, before: seq<Event>, ops: seq<Op>)
    requires Inv(s, before) && AllFit(s, ops)
    ensures Inv(Run(s, ops), before + Stream(s, ops))
    decreases |ops|
  {
    if ops == [] {
      assert before + [] == before;
    } else {
      StepInv(s, before, ops[0]);
      RunInv(Step(s, ops[0]), before + AcceptedBy(s, ops[0]), ops[1..]);
      Regroup(before, AcceptedBy(s, ops[0]), Stream(Step(s, ops[0]), ops[1..]));
    }
  }

  /** When every rotation is timely, they hold the last of them. */
  lemma {:induction false} RunStrict(s: Store, before: seq<Event>, ops: seq<Op>)
    requires Strict(s, before) && AllFit(s, ops) && AllTimely(s, ops)
    ensures Strict(Run(s, ops), before + Stream(s, ops))
    decreases |ops|
  {
    if ops == [] {
      assert before + [] == before;
    } else {
      StepStrict(s, before, ops[0]);
      RunStrict(Step(s, ops[0]), before + AcceptedBy(s, ops[0]), ops[1..]);
      Regroup(before, AcceptedBy(s, ops[0]), Stream(Step(s, ops[0]), ops[1..]));
    }
  }

  function Fresh(production: bool): Store { Store(DefaultPolicy(production), 0, [], 0, []) }

  /** From an empty directory: what is held, in order, and no event more often than it was accepted. */
  lemma FreshRun(production: bool, ops: seq<Op>)
    requires AllFit(Fresh(production), ops)
    ensures var s, t := Fresh(production), Run(Fresh(production), ops);
            && Sub(Held(t), Stream(s, ops)) && multiset(Held(t)) <= multiset(Stream(s, ops))
            && FileBytes(t.history) <= t.policy.TotalBytes()
            && (AllTimely(s, ops) ==> Suffix(Held(t), Stream(s, ops)))
  {
    var s := Fresh(production);
    RunInv(s, [], ops);
    assert [] + Stream(s, ops) == Stream(s, ops);
    SubCounts(Held(Run(s, ops)), Stream(s, ops));
    if AllTimely(s, ops) { RunStrict(s, [], ops); }
  }

  // ---- One write ----------------------------------------------------------------------------

  lemma RotatedPart(s: Store, now: int, packed: nat, order: seq<HistoryFile>)
    requires IsSortOf(ModLess, Moved(s, now, packed).history, order)
    ensures multiset(Rotated(s, now, packed, order).history) <= multiset(Moved(s, now, packed).history)
  {
    var k := CleanedMeaning(Moved(s, now, packed), order, now);
    assert order == order[..k] + order[k..];
  }

  /**
   An event below the level changes nothing; one that fits into the active file, or finds it empty, is appended and the
   history stays; any other begins a new active file, the old one becomes the newest history file, and cleanup may
   remove files but adds none.
   */
  ghost predicate WritesAs(s: Store, e: Event, now: int, packed: nat, t: Store) {
    if e.severity < s.policy.level then t == s
    else if s.size == 0 || s.size + e.size <= s.policy.maxFileMiB * MIB then
      t == Store(s.policy, s.sequence, s.active + [e], s.size + e.size, s.history)
    else
      && t.policy == s.policy && t.sequence == s.sequence + 1 && t.active == [e] && t.size == e.size
      && multiset(t.history) <= multiset(s.history + [HistoryFile(now, s.sequence + 1, now, packed, s.active)])
  }

  lemma WriteMeaning(s: Store, op: Op)
    requires op.Write? && Fits(s, op)
    ensures WritesAs(s, op.event, op.now, op.packed, Step(s, op))
  {
    if RotatesOn(s, op) { RotatedPart(s, op.now, op.packed, op.order); }
  }

  // ---- While everything fits nothing is lost ------------------------------------------------

  /** Events of at least the given severity that the operations write, in order. */
  function Loud(level: int, ops: seq<Op>): seq<Event> {
    if ops == [] then []
    else
      (if ops[0].Write? && ops[0].event.severity >= level then [ops[0].event] else []) + Loud(level, ops[1..])
  }

  /** A write or a cleanup within one retention period; packing a file adds at most one MiB. */
  predicate Plain(s: Store, op: Op, since: int) {
    && (op.Write? || op.Tick?) && op.now <= since + s.policy.retentionDays * DAY
    && (op.Write? ==> since <= op.now && op.packed <= s.size + MIB)
  }

  ghost predicate AllPlain(s: Store, ops: seq<Op>, since: int)
    decreases |ops|
  {
    ops == [] || (Plain(s, ops[0], since) && AllPlain(Step(s, ops[0]), ops[1..], since))
  }

  /** So many bytes of events stay within the number of files and the total size, however they are cut into files. */
  predicate Room(p: Policy, bytes: nat) {
    && 2 * bytes <= (p.maxBackups + 1) * (p.maxFileMiB * MIB)
    && bytes + p.maxBackups * MIB <= p.maxTotalMiB * MIB
  }

  /** Everything accepted is held, two neighbouring files are larger than the file limit, and nothing is old. */
  ghost predicate Whole(s: Store, accepted: seq<Event>, since: int) {
    && s.policy.Valid() && s.size == Bytes(s.active) && Held(s) == accepted
    && |s.history| * s.policy.FileBytes() + s.size + One(s.history != []) <= 2 * Bytes(accepted)
    && FileBytes(s.history) + s.size <= Bytes(accepted) + |s.history| * MIB
    && (s.history == [] ==> s.size == Bytes(accepted))
    && (Bytes(accepted) <= s.policy.FileBytes() ==> s.history == [])
    && forall f :: f in s.history ==> since <= f.mod
  }

  /** Cleanup removes nothing that is young enough while count and size are within the policy. */
  lemma NothingGone(s: Store, order: seq<HistoryFile>, now: int, since: int)
    requires IsSortOf(ModLess, s.history, order) && now <= since + s.policy.retentionDays * DAY
    requires forall f :: f in s.history ==> since <= f.mod
    requires |s.history| <= s.policy.maxBackups && s.size + FileBytes(s.history) <= s.policy.TotalBytes()
    ensures Cleaned(s, order, now) == s
  {
    SameMembers(s.history, order);
    BytesPermute(s.history, order);
    assert |order| == |multiset(order)| == |s.history|;
    assert order != [] ==> order[0] in order;
    assert Trim(order, s.size, s.policy, now) == order;
    assert Gone(s, order, now) == [];
  }

  lemma TimesGrow(a: nat, b: nat, m: int)
    requires a <= b && m > 0
    ensures a * m <= b * m
  {
  }

  lemma Fewer(files: nat, backups: int, fileBytes: int)
    requires fileBytes > 0 && files * fileBytes < (backups + 1) * fileBytes
    ensures files <= backups
  {
    if files > backups { TimesGrow(backups + 1, files, fileBytes); }
  }

  lemma Times(n: nat, m: int)
    ensures (n + 1) * m == n * m + m
  {
  }

  lemma BytesNext(accepted: seq<Event>, e: Event)
    ensures Bytes(accepted + [e]) == Bytes(accepted) + e.size
  {
    assert (accepted + [e])[..|accepted|] == accepted;
  }

  lemma {:induction false} FileBytesNext(files: seq<HistoryFile>, file: HistoryFile)
    ensures FileBytes(files + [file]) == FileBytes(files) + file.size
  {
    if files == [] {
      assert [file][1..] == [];
    } else {
      FileBytesNext(files[1..], file);
      assert (files + [file])[1..] == files[1..] + [file];
    }
  }

  /** Before a rotation there is room for one more file. */
  lemma RoomToRotate(s: Store, accepted: seq<Event>, e: Event, since: int)
    requires Whole(s, accepted, since) && Rotates(s, e) && Room(s.policy, Bytes(accepted) + e.size)
    ensures |s.history| + 1 <= s.policy.maxBackups
    ensures (|s.history| + 1) * s.policy.FileBytes() + e.size + 1 <= 2 * (Bytes(accepted) + e.size)
  {
    Times(|s.history|, s.policy.FileBytes());
    Fewer(|s.history| + 1, s.policy.maxBackups, s.policy.FileBytes());
  }

  lemma MovedStays(s: Store, accepted: seq<Event>, op: Op, since: int)
    requires op.Write? && Whole(s, accepted, since) && Plain(s, op, since) && Fits(s, op)
    requires Accepts(s.policy, op.event) && Rotates(s, op.event) && Room(s.policy, Bytes(accepted) + op.event.size)
    ensures Rotated(s, op.now, op.packed, op.order) == Moved(s, op.now, op.packed)
    ensures FileBytes(Moved(s, op.now, op.packed).history) <= Bytes(accepted) + (|s.history| + 1) * MIB
  {
    var moved := Moved(s, op.now, op.packed);
    RoomToRotate(s, accepted, op.event, since);
    FileBytesNext(s.history, moved.history[|s.history|]);
    NothingGone(moved, op.order, op.now, since);
  }

  lemma RotationWhole(s: Store, accepted: seq<Event>, op: Op, since: int)
    requires op.Write? && Whole(s, accepted, since) && Plain(s, op, since) && Fits(s, op)
    requires Accepts(s.policy, op.event) && Rotates(s, op.event) && Room(s.policy, Bytes(accepted) + op.event.size)
    ensures Whole(Step(s, op), accepted + [op.event], since)
  {
    var moved := Moved(s, op.now, op.packed);
    MovedStays(s, accepted, op, since);
    RoomToRotate(s, accepted, op.event, since);
    MovedHeld(s, op.now, op.packed);
    AppendedHeld(moved, op.event);
    BytesNext(accepted, op.event);
    assert Step(s, op) == Appended(moved, op.event);
  }

  lemma TickWhole(s: Store, accepted: seq<Event>, op: Op, since: int)
    requires op.Tick? && Whole(s, accepted, since) && Plain(s, op, since) && Fits(s, op)
    requires Room(s.policy, Bytes(accepted))
    ensures Step(s, op) == s
  {
    if s.history != [] {
      Fewer(|s.history|, s.policy.maxBackups, s.policy.FileBytes());
      TimesGrow(|s.history|, s.policy.maxBackups, MIB);
    }
    NothingGone(s, op.order, op.now, since);
  }

  lemma AppendWhole(s: Store, accepted: seq<Event>, e: Event, since: int)
    requires Whole(s, accepted, since) && !Rotates(s, e)
    ensures Whole(Appended(s, e), accepted + [e], since)
  {
    AppendedHeld(s, e);
    BytesNext(accepted, e);
  }

  lemma StepWhole(s: Store, accepted: seq<Event>, op: Op, since: int)
    requires Whole(s, accepted, since) && Plain(s, op, since) && Fits(s, op)
    requires Room(s.policy, Bytes(accepted + AcceptedBy(s, op)))
    ensures Whole(Step(s, op), accepted + AcceptedBy(s, op), since)
  {
    assert accepted + [] == accepted;
    if op.Tick? {
      TickWhole(s, accepted, op, since);
    } else if Accepts(s.policy, op.event) {
      BytesNext(accepted, op.event);
      if Rotates(s, op.event) {
        RotationWhole(s, accepted, op, since);
      } else {
        AppendWhole(s, accepted, op.event, since);
      }
    }
  }

  lemma {:induction false} BytesGrow(a: seq<Event>, b: seq<Event>)
    ensures Bytes(a + b) >= Bytes(a)
  {
    if b == [] {
      assert a + b == a;
    } else {
      BytesGrow(a, b[..|b| - 1]);
      assert (a + b)[..|a + b| - 1] == a + b[..|b| - 1];
    }
  }

  lemma RoomBefore(p: Policy, a: seq<Event>, b: seq<Event>)
    requires Room(p, Bytes(a + b))
    ensures Room(p, Bytes(a))
  {
    BytesGrow(a, b);
  }

  lemma PlainPolicy(s: Store, op: Op, since: int)
    requires Plain(s, op, since)
    ensures Step(s, op).policy == s.policy
  {
  }

  /** What is accepted is what is severe enough. */
  lemma {:induction false} StreamIsLoud(s: Store, ops: seq<Op>, since: int)
    requires AllPlain(s, ops, since)
    ensures Stream(s, ops) == Loud(s.policy.level, ops) && Run(s, ops).policy == s.policy
    decreases |ops|
  {
    if ops == [] {
    } else {
      PlainPolicy(s, ops[0], since);
      StreamIsLoud(Step(s, ops[0]), ops[1..], since);
    }
  }

  lemma {:induction false} RunWhole(s: Store, before: seq<Event>, ops: seq<Op>, since: int)
    requires Whole(s, before, since) && AllPlain(s, ops, since) && AllFit(s, ops)
    requires Room(s.policy, Bytes(before + Stream(s, ops)))
    ensures Whole(Run(s, ops), before + Stream(s, ops), since)
    decreases |ops|
  {
    if ops == [] {
      assert before + [] == before;
    } else {
      var step, rest := AcceptedBy(s, ops[0]), Stream(Step(s, ops[0]), ops[1..]);
      Regroup(before, step, rest);
      RoomBefore(s.policy, before + step, rest);
      PlainPolicy(s, ops[0], since);
      StepWhole(s, before, ops[0], since);
      RunWhole(Step(s, ops[0]), before + step, ops[1..], since);
    }
  }

  /**
   From an empty directory, as long as the events of sufficient severity leave room, all of them are held, in order,
   and they are still in the active file alone while they fit into one.
   */
  lemma NothingIsLost(p: Policy, ops: seq<Op>, since: int)
    requires var s := Store(p, 0, [], 0, []);
             p.Valid() && AllPlain(s, ops, since) && AllFit(s, ops) && Room(p, Bytes(Stream(s, ops)))
    ensures var s, t := Store(p, 0, [], 0, []), Run(Store(p, 0, [], 0, []), ops);
            && Stream(s, ops) == Loud(p.level, ops) && Held(t) == Loud(p.level, ops)
            && (Bytes(Loud(p.level, ops)) <= p.maxFileMiB * MIB ==> t.history == [] && t.active == Loud(p.level, ops))
  {
    var s := Store(p, 0, [], 0, []);
    assert [] + Stream(s, ops) == Stream(s, ops);
    StreamIsLoud(s, ops, since);
    RunWhole(s, [], ops, since);
  }

  /** With the default policy there is room for 110 MiB. */
  lemma DefaultRoom(production: bool, bytes: nat)
    ensures Room(DefaultPolicy(production), bytes) <==> bytes <= 110 * MIB
  {
  }

  // ---- Ordering by modification time --------------------------------------------------------

  lemma ModLessIsWeak()
    ensures WeakOrder(ModLess)
  {
  }

  /** With strictly increasing modification times the directory has one order, the rotation order. */
  lemma TimedSortsToItself(files: seq<HistoryFile>, order: seq<HistoryFile>)
    requires Timed(files) && IsSortOf(ModLess, files, order)
    ensures order == files
  {
    forall x, y | x in files && y in files && x != y ensures ModLess(x, y) || ModLess(y, x) {
      var i :| 0 <= i < |files| && files[i] == x;
      var j :| 0 <= j < |files| && files[j] == y;
    }
    SortUnique(ModLess, files, order);
  }

  lemma SwapSorted(files: seq<HistoryFile>, i: nat, j: nat) returns (order: seq<HistoryFile>)
    requires i < j < |files| && files[i] != files[j] && files[i].mod >= files[j].mod
    requires forall a, b :: 0 <= a < b < |files| ==> !ModLess(files[b], files[a])
    ensures IsSortOf(ModLess, files, order) && order != files
  {
    order := files[i := files[j]][j := files[i]];
    assert order[i] != files[i];
    forall k | i <= k <= j ensures files[k].mod == files[i].mod {
      assert k > i ==> !ModLess(files[k], files[i]);
      assert k < j ==> !ModLess(files[j], files[k]);
      assert !ModLess(files[j], files[i]);
    }
    assert forall a, b :: 0 <= a < b < |files| ==> order[a].mod <= order[b].mod;
  }

  /**
   * Every result the unstable sort may give is the rotation order if and only if modification times strictly increase.
   */
  lemma RotationOrderIff(files: seq<HistoryFile>)
    requires Distinct(files)
    ensures (forall order :: IsSortOf(ModLess, files, order) ==> order == files) <==> Timed(files)
  {
    if Timed(files) {
      forall order | IsSortOf(ModLess, files, order) ensures order == files { TimedSortsToItself(files, order); }
    } else {
      var i, j :| 0 <= i < j < |files| && files[i].mod >= files[j].mod;
      ModLessIsWeak();
      SortSorts(ModLess, files);
      if Sort(ModLess, files) == files {
        var order := SwapSorted(files, i, j);
      }
    }
  }

  /** Equal modification times let the unstable sort put a newer file first, and cleanup then tears a hole. */
  lemma TiesTearAHole(e1: Event, e2: Event) returns (s: Store, op: Op)
    requires e1 != e2
    ensures Inv(s, [e1, e2]) && Held(s) == [e1, e2] && Fits(s, op) && op.Tick?
    ensures Held(Step(s, op)) == [e1] && !Suffix(Held(Step(s, op)), [e1, e2])
  {
    var p := Policy(0, 1, 1, 1, 32);
    var a, b := HistoryFile(0, 1, 0, 1, [e1]), HistoryFile(0, 2, 0, 1, [e2]);
    s, op := Store(p, 2, [], 0, [a, b]), Tick(0, [b, a]);
    TieSizes(a, b);
    TieCleaned(s, a, b);
    SubSelf([e1, e2]);
  }

  lemma TieCleaned(s: Store, a: HistoryFile, b: HistoryFile)
    requires s.history == [a, b] && a != b && s.size == 0 && a.size == 1 && b.size == 1 && a.mod == b.mod == 0
    requires s.policy.Valid() && s.policy.maxBackups == 1
    ensures Cleaned(s, [b, a], 0).history == [a]
  {
    TieSizes(a, b);
    assert Trim([b, a], 0, s.policy, 0) == Trim([a], 0, s.policy, 0) == [a];
    assert Gone(s, [b, a], 0) == [b, a][..1] == [b];
    assert Remove([a, b], b) == [a] + Remove([b], b) == [a] + [];
    assert RemoveAll([a, b], [b]) == Remove([a, b], b);
  }

  lemma TieSizes(a: HistoryFile, b: HistoryFile)
    requires a.size == 1 && b.size == 1
    ensures [a, b][1..] == [b] && [b, a][1..] == [a] && [a][1..] == [] && [b][1..] == []
    ensures FileBytes([a]) == 1 && FileBytes([a, b]) == 2 && FileBytes([b, a]) == 2
    ensures Events([a]) == a.events && Events([a, b]) == a.events + b.events
  {
    assert [a, b][1..] == [b] && [b, a][1..] == [a] && [a][1..] == [] && [b][1..] == [];
    assert FileBytes([a]) == 1 + FileBytes([]) && FileBytes([b]) == 1 + FileBytes([]);
    assert Events([a]) == a.events + [] && Events([b]) == b.events + [];
  }

  // ---- The manager --------------------------------------------------------------------------

  lemma RemoveAllNext(files: seq<HistoryFile>, order: seq<HistoryFile>, i: nat)
    requires i < |order|
    ensures RemoveAll(files, order[..i + 1]) == Remove(RemoveAll(files, order[..i]), order[i])
  {
    RemoveAllSplit(files, order[..i], [order[i]]);
    assert order[..i] + [order[i]] == order[..i + 1] && [order[i]][1..] == [];
  }

  lemma {:induction false} RemoveAllSplit(files: seq<HistoryFile>, a: seq<HistoryFile>, b: seq<HistoryFile>)
    ensures RemoveAll(files, a + b) == RemoveAll(RemoveAll(files, a), b)
    decreases |a|
  {
    if a == [] {
      assert a + b == b;
    } else {
      RemoveAllSplit(Remove(files, a[0]), a[1..], b);
      assert (a + b)[0] == a[0] && (a + b)[1..] == a[1..] + b;
    }
  }

  /** The log manager: its fields and the directory it owns. */
  class Manager {
    var policy: Policy
    var sequence: nat
    var active: seq<Event>
    var size: nat
    var history: seq<HistoryFile>

    ghost function Model(): Store
      reads this
    {
      Store(policy, sequence, active, size, history)
    }

    constructor (production: bool)
      ensures Model() == Fresh(production) && Inv(Model(), []) && Strict(Model(), [])
    {
      policy := DefaultPolicy(production);
      sequence, active, size, history := 0, [], 0, [];
    }

    /** managedHistoryLocked: some order of the directory by modification time. */
    method ManagedHistory() returns (files: seq<HistoryFile>)
      ensures IsSortOf(ModLess, history, files)
    {
      ModLessIsWeak();
      SortSorts(ModLess, history);
      files := Sort(ModLess, history);
    }

    /** cleanupLocked; `order` is the order in which it found the files. */
    method Cleanup(now: int) returns (ghost order: seq<HistoryFile>)
      modifies this`history
      ensures IsSortOf(ModLess, old(history), order) && Model() == Cleaned(old(Model()), order, now)
    {
      var files := ManagedHistory();
      order := files;
      var total := size + FileBytes(files);
      ghost var gone := 0;
      assert order[0..] == order;
      while files != []
        invariant gone <= |order| && files == order[gone..] && total == size + FileBytes(files)
        invariant history == RemoveAll(old(history), order[..gone])
        invariant Trim(files, size, policy, now) == Trim(order, size, policy, now)
        decreases |files|
      {
        var oldest := files[0];
        var young := !(oldest.mod < now - policy.retentionDays * DAY);
        if young && |files| <= policy.maxBackups && total <= policy.TotalBytes() {
          break;
        }
        RemoveAllNext(old(history), order, gone);
        history := Remove(history, oldest);
        total := total - oldest.size;
        files := files[1..];
        gone := gone + 1;
      }
      assert |Trim(order, size, policy, now)| == |order| - gone;
    }

    /** rotateLocked */
    method Rotate(now: int, packed: nat) returns (ghost order: seq<HistoryFile>)
      modifies this
      ensures IsSortOf(ModLess, Moved(old(Model()), now, packed).history, order)
      ensures Model() == Rotated(old(Model()), now, packed, order)
    {
      sequence := sequence + 1;
      history := history + [HistoryFile(now, sequence, now, packed, active)];
      active, size := [], 0;
      order := Cleanup(now);
    }

    /** Write; `accepted` is the stream of events accepted so far. */
    method Write(e: Event, now: int, packed: nat, ghost accepted: seq<Event>) returns (ghost op: Op)
      requires Inv(Model(), accepted)
      modifies this
      ensures op == Op.Write(e, now, packed, op.order) && Fits(old(Model()), op) && Model() == Step(old(Model()), op)
      ensures WritesAs(old(Model()), e, now, packed, Model())
      ensures Inv(Model(), accepted + AcceptedBy(old(Model()), op))
      ensures Strict(old(Model()), accepted) && Timely(old(Model()), op) ==>
                Strict(Model(), accepted + AcceptedBy(old(Model()), op))
    {
      ghost var before := Model();
      op := Append(e, now, packed);
      StepInv(before, accepted, op);
      WriteMeaning(before, op);
      if Strict(before, accepted) && Timely(before, op) { StepStrict(before, accepted, op); }
    }

    /** The file operations of Write. */
    method Append(e: Event, now: int, packed: nat) returns (ghost op: Op)
      modifies this
      ensures op == Op.Write(e, now, packed, op.order) && Fits(old(Model()), op) && Model() == Step(old(Model()), op)
    {
      ghost var order := [];
      if e.severity < policy.level {
        return Op.Write(e, now, packed, order);
      }
      if size > 0 && size + e.size > policy.FileBytes() {
        order := Rotate(now, packed);
      }
      active, size := active + [e], size + e.size;
      op := Op.Write(e, now, packed, order);
    }

    /** Apply */
    method Apply(p: Policy, now: int, ghost accepted: seq<Event>) returns (ok: bool)
      requires Inv(Model(), accepted)
      modifies this
      ensures Inv(Model(), accepted)
      ensures ok <==>
              && p.level in {0, 1, 2, 3} && 1 <= p.maxFileMiB <= 256 && 1 <= p.maxBackups <= 100
              && 1 <= p.retentionDays <= 365 && 32 <= p.maxTotalMiB <= 10240 && p.maxFileMiB <= p.maxTotalMiB
      ensures !ok ==> Model() == old(Model())
      ensures ok ==> exists order :: IsSortOf(ModLess, old(history), order) &&
                                     Model() == Step(old(Model()), ApplyPolicy(p, now, order))
      ensures Strict(old(Model()), accepted) ==> Strict(Model(), accepted)
    {
      ghost var before := Model();
      if !p.Valid() {
        return false;
      }
      policy := p;
      ghost var order := Cleanup(now);
      assert Model() == Step(before, ApplyPolicy(p, now, order));
      CleanedInv(before.(policy := p), accepted, order, now);
      if Strict(before, accepted) { CleanedStrict(before.(policy := p), accepted, order, now); }
      return true;
    }
  }
}
