/** Slash-separated provider paths: what the projection does to well-formed ones, and why ignoring is monotone. */
module Paths {
  import opened Common
  import opened Text
  import opened Sorting
  import opened Scan

  // ---- Ignoring a directory ignores everything below it ------------------------------------

  lemma {:induction false} TrimLeftKeeps(s: string, part: string)
    requires part != ""
    ensures part in Split(TrimSlashesLeft(s), '/') <==> part in Split(s, '/')
  {
    if s == [] || s[0] != '/' {
    } else {
      TrimLeftKeeps(s[1..], part);
    }
  }

  lemma {:induction false} TrimRightKeeps(s: string, part: string)
    requires part != ""
    ensures part in Split(TrimSlashesRight(s), '/') <==> part in Split(s, '/')
  {
    if s == [] || s[|s| - 1] != '/' {
    } else {
      var init := s[..|s| - 1];
      TrimRightKeeps(init, part);
      SplitJoin(init, "", '/');
      assert s == init + ['/'] + "";
    }
  }

  lemma RecycleSegment(lower: string)
    ensures RECYCLE in Split(TrimSlashesRight(TrimSlashesLeft(lower)), '/') <==> RECYCLE in Split(lower, '/')
  {
    TrimRightKeeps(TrimSlashesLeft(lower), RECYCLE);
    TrimLeftKeeps(lower, RECYCLE);
  }

  lemma RecycleBelow(lower: string, rest: string)
    requires RECYCLE in Split(TrimSlashesRight(TrimSlashesLeft(lower)), '/')
    ensures RECYCLE in Split(TrimSlashesRight(TrimSlashesLeft(lower + ['/'] + rest)), '/')
  {
    RecycleSegment(lower);
    RecycleSegment(lower + ['/'] + rest);
    SplitJoin(lower, rest, '/');
  }

  lemma PatternBelow(lower: string, rest: string, patterns: seq<string>, i: nat)
    requires i < |patterns| && MatchesPattern(lower, patterns, i)
    ensures MatchesPattern(lower + ['/'] + rest, patterns, i)
  {
    ContainsExtends(lower, ['/'] + rest, Lower(TrimSpace(patterns[i])));
    assert lower + (['/'] + rest) == lower + ['/'] + rest;
  }

  /** Pruning an ignored directory is the same as filtering its descendants one by one. */
  lemma IgnoreBelow(path: string, name: string, patterns: seq<string>)
    requires ShouldIgnore(path, patterns)
    ensures ShouldIgnore(path + "/" + name, patterns)
  {
    var lower := Lower(path);
    assert Lower(path + "/" + name) == lower + ['/'] + Lower(name);
    if i :| 0 <= i < |patterns| && MatchesPattern(lower, patterns, i) {
      PatternBelow(lower, Lower(name), patterns, i);
    } else {
      RecycleBelow(lower, Lower(name));
    }
  }

  // ---- Patterns within one segment judge names, not paths -----------------------------------

  /** The pattern has no slash behind its first character, so it cannot reach from one segment into the next. */
  predicate WithinSegment(pattern: string) { pattern == "" || '/' !in pattern[1..] }

  predicate JudgeNames(patterns: seq<string>) {
    forall i :: 0 <= i < |patterns| ==> WithinSegment(Lower(TrimSpace(patterns[i])))
  }

  /** An occurrence of such a pattern ends before the slash or begins at it or behind it. */
  lemma OccursOnOneSide(left: string, right: string, pattern: string, i: nat)
    requires pattern != "" && WithinSegment(pattern) && OccursAt(left + ['/'] + right, pattern, i)
    ensures i + |pattern| <= |left| || i >= |left|
  {
    var whole, rest := left + ['/'] + right, pattern[1..];
    var part := whole[i..i + |pattern|];
    assert whole[|left|] == '/' && part == pattern;
    assert forall k :: 0 <= k < |rest| ==> rest[k] == whole[i + 1 + k] && rest[k] in rest;
  }

  lemma OccursInPart(left: string, right: string, pattern: string, i: nat)
    requires pattern != "" && WithinSegment(pattern) && OccursAt(left + ['/'] + right, pattern, i)
    ensures Contains(left, pattern) || Contains(['/'] + right, pattern)
  {
    var tail, m := ['/'] + right, |pattern|;
    assert left + ['/'] + right == left + tail;
    OccursOnOneSide(left, right, pattern, i);
    if i + m <= |left| {
      OccursBefore(left, tail, pattern, i);
    } else {
      OccursBehind(left, tail, pattern, i);
    }
  }

  lemma OccursBefore(left: string, right: string, pattern: string, i: nat)
    requires OccursAt(left + right, pattern, i) && i + |pattern| <= |left|
    ensures Contains(left, pattern)
  {
    assert (left + right)[i..i + |pattern|] == left[i..i + |pattern|];
    assert OccursAt(left, pattern, i);
  }

  lemma OccursBehind(left: string, right: string, pattern: string, i: nat)
    requires OccursAt(left + right, pattern, i) && i >= |left|
    ensures Contains(right, pattern)
  {
    var j := i - |left|;
    assert (left + right)[i..i + |pattern|] == right[j..j + |pattern|];
    assert OccursAt(right, pattern, j);
  }

  lemma ContainsSuffix(before: string, s: string, pattern: string)
    requires Contains(s, pattern)
    ensures Contains(before + s, pattern)
  {
    var i :| 0 <= i <= |s| && OccursAt(s, pattern, i);
    assert (before + s)[|before| + i..|before| + i + |pattern|] == s[i..i + |pattern|];
    assert OccursAt(before + s, pattern, |before| + i);
  }

  lemma ContainsEither(left: string, right: string, pattern: string)
    requires pattern != "" && WithinSegment(pattern)
    ensures Contains(left + ['/'] + right, pattern) <==> Contains(left, pattern) || Contains(['/'] + right, pattern)
  {
    var whole, tail := left + ['/'] + right, ['/'] + right;
    assert left + tail == whole;
    if i :| 0 <= i <= |whole| && OccursAt(whole, pattern, i) { OccursInPart(left, right, pattern, i); }
    if Contains(left, pattern) { ContainsExtends(left, tail, pattern); }
    if Contains(tail, pattern) { ContainsSuffix(left, tail, pattern); }
  }

  lemma RecycleEither(left: string, right: string)
    ensures RECYCLE in Split(TrimSlashesRight(TrimSlashesLeft(left + ['/'] + right)), '/') <==>
            || RECYCLE in Split(TrimSlashesRight(TrimSlashesLeft(left)), '/')
            || RECYCLE in Split(TrimSlashesRight(TrimSlashesLeft(['/'] + right)), '/')
  {
    RecycleSegment(left);
    RecycleSegment(['/'] + right);
    RecycleSegment(left + ['/'] + right);
    SplitJoin(left, right, '/');
    SplitJoin("", right, '/');
    assert "" + ['/'] + right == ['/'] + right;
  }

  lemma MatchesEither(left: string, right: string, patterns: seq<string>, i: nat)
    requires i < |patterns| && JudgeNames(patterns)
    ensures MatchesPattern(left + ['/'] + right, patterns, i) <==>
            MatchesPattern(left, patterns, i) || MatchesPattern(['/'] + right, patterns, i)
  {
    var pattern := Lower(TrimSpace(patterns[i]));
    if pattern != "" { ContainsEither(left, right, pattern); }
  }

  /** Then a path is ignored exactly when one of its names is, wherever that name lies. */
  lemma IgnoreIsLocal(path: string, name: string, patterns: seq<string>)
    requires JudgeNames(patterns)
    ensures ShouldIgnore(path + "/" + name, patterns) <==>
            ShouldIgnore(path, patterns) || ShouldIgnore("/" + name, patterns)
  {
    var left, right := Lower(path), Lower(name);
    assert Lower(path + "/" + name) == left + ['/'] + right && Lower("/" + name) == ['/'] + right;
    RecycleEither(left, right);
    forall i | 0 <= i < |patterns|
      ensures MatchesPattern(left + ['/'] + right, patterns, i) <==>
              MatchesPattern(left, patterns, i) || MatchesPattern(['/'] + right, patterns, i)
    {
      MatchesEither(left, right, patterns, i);
    }
  }

  // ---- Patterns whose verdict on a name is the same everywhere ------------------------------

  /** A name that is not ignored below one path is not ignored below another path that is itself not ignored. */
  predicate AgreeAt(patterns: seq<string>, p: string, q: string, n: string) {
    !ShouldIgnore("/" + p, patterns) && !ShouldIgnore("/" + q + "/" + n, patterns) ==>
      !ShouldIgnore("/" + p + "/" + n, patterns)
  }

  ghost predicate NamesAgree(patterns: seq<string>) {
    forall p, q, n :: AgreeAt(patterns, p, q, n)
  }

  /** Patterns within one segment are such patterns. */
  lemma JudgeNamesAgree(patterns: seq<string>)
    requires JudgeNames(patterns)
    ensures NamesAgree(patterns)
  {
    forall p, q, n ensures AgreeAt(patterns, p, q, n) {
      IgnoreIsLocal("/" + p, n, patterns);
      IgnoreIsLocal("/" + q, n, patterns);
    }
  }

  lemma RecycleAbove(left: string, right: string)
    requires RECYCLE in Split(TrimSlashesRight(TrimSlashesLeft(['/'] + right)), '/')
    ensures RECYCLE in Split(TrimSlashesRight(TrimSlashesLeft(left + ['/'] + right)), '/')
  {
    RecycleEither(left, right);
  }

  lemma PatternAbove(left: string, right: string, patterns: seq<string>, i: nat)
    requires i < |patterns| && MatchesPattern(['/'] + right, patterns, i)
    ensures MatchesPattern(left + ['/'] + right, patterns, i)
  {
    ContainsSuffix(left, ['/'] + right, Lower(TrimSpace(patterns[i])));
    assert left + (['/'] + right) == left + ['/'] + right;
  }

  /** What is ignored below the root is ignored below every path. */
  lemma IgnoreAbove(path: string, name: string, patterns: seq<string>)
    requires ShouldIgnore("/" + name, patterns)
    ensures ShouldIgnore(path + "/" + name, patterns)
  {
    var left, right := Lower(path), Lower(name);
    assert Lower(path + "/" + name) == left + ['/'] + right && Lower("/" + name) == ['/'] + right;
    if i :| 0 <= i < |patterns| && MatchesPattern(['/'] + right, patterns, i) {
      PatternAbove(left, right, patterns, i);
    } else {
      RecycleAbove(left, right);
    }
  }

  // ---- Well-formed paths are left alone -----------------------------------------------------

  /** A single path segment that no normalisation step changes or rejects. */
  predicate GoodName(name: string) {
    && name != "" && name != "." && name != ".." && '/' !in name && !Unprintable(name)
    && !IsSpace(name[|name| - 1]) && ".." !in Split(Slashed(name), '/')
  }

  ghost predicate GoodNames(names: seq<string>) {
    forall i :: 0 <= i < |names| ==> GoodName(names[i])
  }

  lemma RootedNext(names: seq<string>, name: string)
    ensures Rooted(names + [name]) == Rooted(names) + "/" + name
  {
    assert (names + [name])[..|names|] == names;
  }

  lemma SplitNext(above: string, segments: seq<string>, last: string)
    requires Split(above, '/') == segments && '/' !in last
    ensures Split(above + "/" + last, '/') == segments + [last]
  {
    SplitJoin(above, last, '/');
    SplitWithout(last, '/');
    assert above + "/" + last == above + ['/'] + last;
  }

  lemma {:induction false} SplitRooted(names: seq<string>)
    requires GoodNames(names)
    ensures Split(Rooted(names), '/') == [""] + names
  {
    if names == [] {
    } else {
      var init, last := names[..|names| - 1], names[|names| - 1];
      SplitRooted(init);
      SplitNext(Rooted(init), [""] + init, last);
      Regroup([""], init, [last]);
    }
  }

  /** Different segment lists spell different paths. */
  lemma RootedInjective(a: seq<string>, b: seq<string>)
    requires GoodNames(a) && GoodNames(b) && Rooted(a) == Rooted(b)
    ensures a == b
  {
    SplitRooted(a);
    SplitRooted(b);
    assert ([""] + a)[1..] == a && ([""] + b)[1..] == b;
  }

  lemma {:induction false} CleanKeeps(names: seq<string>)
    requires GoodNames(names)
    ensures CleanSegments([""] + names) == names
  {
    var all := [""] + names;
    if names == [] {
      assert all[..0] == [];
    } else {
      CleanKeeps(names[..|names| - 1]);
      assert all[..|all| - 1] == [""] + names[..|names| - 1];
    }
  }

  lemma {:induction false} NoDotDot(names: seq<string>)
    requires GoodNames(names)
    ensures ".." !in Split(Slashed(Rooted(names)), '/')
  {
    if names == [] {
    } else {
      var init, last := names[..|names| - 1], names[|names| - 1];
      NoDotDot(init);
      assert Slashed(Rooted(names)) == Slashed(Rooted(init)) + ['/'] + Slashed(last);
      SplitJoin(Slashed(Rooted(init)), Slashed(last), '/');
    }
  }

  lemma UnprintableNext(above: string, last: string)
    requires !Unprintable(above) && !Unprintable(last)
    ensures !Unprintable(above + "/" + last)
  {
  }

  lemma {:induction false} RootedShape(names: seq<string>)
    requires GoodNames(names)
    ensures !Unprintable(Rooted(names))
    ensures names != [] ==> HasPrefix(Rooted(names), "/") && |Rooted(names)| > 1
    ensures names != [] ==> !IsSpace(Rooted(names)[|Rooted(names)| - 1])
  {
    if names == [] {
    } else {
      var init, last := names[..|names| - 1], names[|names| - 1];
      RootedShape(init);
      UnprintableNext(Rooted(init), last);
      assert Rooted(names) == Rooted(init) + "/" + last;
      assert Rooted(names)[|Rooted(names)| - 1] == last[|last| - 1];
      RootedHead(init, last);
    }
  }

  lemma RootedHead(init: seq<string>, last: string)
    requires Rooted(init) == "" || HasPrefix(Rooted(init), "/")
    ensures HasPrefix(Rooted(init) + "/" + last, "/")
  {
    var path := Rooted(init) + "/" + last;
    assert path[0] == '/' && path[..1] == "/";
  }

  lemma TrimGood(names: seq<string>)
    requires names != [] && GoodNames(names)
    ensures TrimSpace(Rooted(names)) == Rooted(names)
  {
    var path := Rooted(names);
    RootedShape(names);
    assert path[0] == '/' && !IsSpace('/');
  }

  lemma CleanGood(names: seq<string>)
    requires names != [] && GoodNames(names)
    ensures CleanRooted(Rooted(names)) == Rooted(names)
  {
    SplitRooted(names);
    CleanKeeps(names);
  }

  /** On a well-formed path the projection only filters and classifies. */
  lemma ProjectGood(rules: Rules, e: Entry, names: seq<string>)
    requires names != [] && GoodNames(names) && e.relativePath == Rooted(names)
    ensures Project(rules, e) ==
            if e.isDir || ShouldIgnore(e.relativePath, rules.ignores) then Skipped
            else Classify(rules, e, e.relativePath)
  {
    TrimGood(names);
    CleanGood(names);
    RootedShape(names);
    NoDotDot(names);
  }

  // ---- What is accepted has a canonical path ------------------------------------------------

  /** A segment that names exactly one step down. */
  predicate Proper(name: string) { name != "" && name != "." && name != ".." && '/' !in name }

  lemma {:induction false} SplitHasNoSeparator(s: string, i: nat)
    requires i < |Split(s, '/')|
    ensures '/' !in Split(s, '/')[i]
  {
    if s == [] {
    } else {
      if s[0] == '/' {
        if i > 0 { SplitHasNoSeparator(s[1..], i - 1); }
      } else {
        SplitHasNoSeparator(s[1..], if i == 0 then 0 else i);
      }
    }
  }

  lemma {:induction false} CleanSegmentsProper(segments: seq<string>)
    requires forall i :: 0 <= i < |segments| ==> '/' !in segments[i]
    ensures forall i :: 0 <= i < |CleanSegments(segments)| ==> Proper(CleanSegments(segments)[i])
  {
    if segments == [] {
    } else {
      CleanSegmentsProper(segments[..|segments| - 1]);
    }
  }

  /** Cleaning spells a path by proper segments only, so equal places get equal paths. */
  lemma CleanIsCanonical(path: string) returns (names: seq<string>)
    ensures forall i :: 0 <= i < |names| ==> Proper(names[i])
    ensures names == CleanSegments(Split(path, '/'))
    ensures CleanRooted(path) == if names == [] then "/" else Rooted(names)
  {
    forall i | 0 <= i < |Split(path, '/')| ensures '/' !in Split(path, '/')[i] { SplitHasNoSeparator(path, i); }
    CleanSegmentsProper(Split(path, '/'));
    names := CleanSegments(Split(path, '/'));
  }

  // ---- Cleaning a path without steps upwards ------------------------------------------------

  function Named(segments: seq<string>): seq<string> {
    if segments == [] then []
    else
      var last := segments[|segments| - 1];
      Named(segments[..|segments| - 1]) + if last == "" || last == "." then [] else [last]
  }

  /** Cleaning drops empty and dot segments and nothing else. */
  lemma {:induction false} CleanDrops(segments: seq<string>)
    requires ".." !in segments
    ensures CleanSegments(segments) == Named(segments)
  {
    if segments == [] {
    } else {
      var n := |segments| - 1;
      assert segments[n] != "..";
      CleanDrops(segments[..n]);
    }
  }

  // ---- What an extension is -----------------------------------------------------------------

  /** Every dot of the name has a slash behind it: its last segment has none. */
  predicate LastWithoutDot(name: string) {
    forall i :: 0 <= i < |name| && name[i] == '.' ==> exists j :: i < j < |name| && name[j] == '/'
  }

  /** The extension is the text of the last segment from its last dot on, or nothing when it has no dot. */
  predicate NameSplits(name: string, stem: string, ext: string) {
    && name == stem + ext
    && if ext == "" then LastWithoutDot(name) else ext[0] == '.' && '.' !in ext[1..] && '/' !in ext[1..]
  }

  /** From the last dot on. */
  lemma {:induction false} ExtFromDot(stem: string, tail: string)
    requires '.' !in tail && '/' !in tail
    ensures Ext(stem + "." + tail) == "." + tail
  {
    var name := stem + "." + tail;
    if tail == "" {
      assert name[|name| - 1] == '.';
    } else {
      var n := |tail| - 1;
      assert tail == tail[..n] + [tail[n]];
      assert name[..|name| - 1] == stem + "." + tail[..n] && name[|name| - 1] == tail[n];
      assert tail[n] in tail;
      ExtFromDot(stem, tail[..n]);
    }
  }

  lemma {:induction false} ExtNone(name: string)
    requires LastWithoutDot(name)
    ensures Ext(name) == ""
  {
    if name == [] || name[|name| - 1] == '/' {
    } else {
      var n := |name| - 1;
      assert name[n] != '.';
      forall i | 0 <= i < n && name[..n][i] == '.' ensures exists j :: i < j < n && name[..n][j] == '/' {
        assert name[i] == '.';
        var j :| i < j < |name| && name[j] == '/';
        assert name[..n][j] == '/';
      }
      ExtNone(name[..n]);
    }
  }

  /** A split of the name determines the extension. */
  lemma ExtIsSplit(name: string, stem: string, ext: string)
    requires NameSplits(name, stem, ext)
    ensures Ext(name) == ext
  {
    if ext == "" {
      ExtNone(name);
    } else {
      ExtFromDot(stem, ext[1..]);
      assert ext == "." + ext[1..] && stem + "." + ext[1..] == name;
    }
  }

  /** Every name splits. */
  lemma {:induction false} SplitName(name: string) returns (stem: string, ext: string)
    ensures NameSplits(name, stem, ext)
  {
    if name == [] || name[|name| - 1] == '/' {
      return name, "";
    }
    var n := |name| - 1;
    assert name == name[..n] + [name[n]];
    if name[n] == '.' {
      stem, ext := name[..n], [name[n]];
    } else {
      stem, ext := SplitName(name[..n]);
      if ext == "" {
        stem := name;
        forall i | 0 <= i < |name| && name[i] == '.' ensures exists j :: i < j < |name| && name[j] == '/' {
          assert name[..n][i] == '.';
          var j :| i < j < n && name[..n][j] == '/';
          assert name[j] == '/';
        }
      } else {
        ext := ext + [name[n]];
        assert ext[1..] == ext[1..|ext| - 1] + [name[n]];
      }
    }
  }

  lemma EveryNameSplits(name: string)
    ensures exists stem, ext :: NameSplits(name, stem, ext)
  {
    var stem, ext := SplitName(name);
  }

  /** The extension as the split defines it. */
  ghost function ExtensionOf(name: string): (ext: string)
    ensures exists stem :: NameSplits(name, stem, ext)
  {
    EveryNameSplits(name);
    var stem, ext :| NameSplits(name, stem, ext);
    ext
  }

  lemma ExtIsExtension(name: string)
    ensures Ext(name) == ExtensionOf(name)
  {
    var stem :| NameSplits(name, stem, ExtensionOf(name));
    ExtIsSplit(name, stem, ExtensionOf(name));
  }

  /** Cleaning what passed the test for steps upwards only drops empty and dot segments. */
  lemma CleanedNames(path: string) returns (names: seq<string>)
    requires ".." !in Split(Slashed(path), '/')
    ensures names == Named(Split(path, '/')) && forall i :: 0 <= i < |names| ==> Proper(names[i])
    ensures CleanRooted(path) == if names == [] then "/" else Rooted(names)
  {
    if ".." in Split(path, '/') { StepsUpStay(path); }
    names := CleanIsCanonical(path);
    CleanDrops(Split(path, '/'));
  }

  predicate Printable(path: string) {
    forall i :: 0 <= i < |path| ==> path[i] != '\0' && path[i] != '\r' && path[i] != '\n'
  }

  lemma ProperIsNotRoot(names: seq<string>)
    requires names != [] && forall i :: 0 <= i < |names| ==> Proper(names[i])
    ensures Rooted(names) != "/"
  {
    var path, last := Rooted(names), names[|names| - 1];
    assert path[|path| - 1] == last[|last| - 1] && last[|last| - 1] in last;
  }

  /**
   An entry that is neither a directory nor ignored is refused, and makes the snapshot partial, exactly when its path
   does not begin with a slash, takes a step upwards in either spelling of the separator, names nothing, or holds a
   zero byte or a line break.
   */
  lemma ProjectFails(rules: Rules, e: Entry)
    ensures var path := TrimSpace(e.relativePath);
            var names := Named(Split(path, '/'));
            Project(rules, e).Failed? <==>
            && !e.isDir && !ShouldIgnore(path, rules.ignores)
            && (path == "" || path[0] != '/' || ".." in Split(Slashed(path), '/') || names == []
                || !Printable(Rooted(names)))
  {
    var path := TrimSpace(e.relativePath);
    assert path != "" && path[0] == '/' ==> path[..1] == "/";
    assert HasPrefix(path, "/") ==> path[0] == path[..1][0];
    if ".." !in Split(Slashed(path), '/') {
      var names := CleanedNames(path);
      if names != [] { ProperIsNotRoot(names); }
    }
  }

  /** Where an accepted item lies. */
  lemma ProjectPath(rules: Rules, e: Entry) returns (names: seq<string>)
    requires Project(rules, e).Keyed()
    ensures names != [] && forall i :: 0 <= i < |names| ==> Proper(names[i])
    ensures Project(rules, e).Path() == Rooted(names) && Printable(Project(rules, e).Path())
    ensures names == Named(Split(TrimSpace(e.relativePath), '/'))
    ensures !e.isDir && !ShouldIgnore(TrimSpace(e.relativePath), rules.ignores)
  {
    names := CleanedNames(TrimSpace(e.relativePath));
  }

  /**
   An accepted item carries the entry's own facts under a canonical, printable path that stays below the root, and the
   text from the last dot of the entry's name on decides whether it is a file or an asset.
   */
  lemma ProjectMeaning(rules: Rules, e: Entry) returns (names: seq<string>, stem: string, ext: string)
    requires Project(rules, e).Keyed()
    ensures names != [] && forall i :: 0 <= i < |names| ==> Proper(names[i])
    ensures Project(rules, e).Path() == Rooted(names) && Printable(Project(rules, e).Path())
    ensures names == Named(Split(TrimSpace(e.relativePath), '/'))
    ensures !e.isDir && !ShouldIgnore(TrimSpace(e.relativePath), rules.ignores)
    ensures NameSplits(e.name, stem, ext) && Project(rules, e).Provider() == e.id
    ensures Project(rules, e).FileItem? <==> Lower(ext) in rules.extensions
    ensures Project(rules, e).FileItem? ==>
              var f := Project(rules, e).file; f.providerIdStable && f.size == e.size && f.modifiedAt == e.modifiedAt
    ensures Project(rules, e).AssetItem? ==>
              var a := Project(rules, e).asset;
              && Lower(ext) in rules.assetExtensions && a.extension == Lower(ext) && a.name == e.name
              && a.parentProviderId == e.parentId && a.size == e.size && a.modifiedAt == e.modifiedAt
              && a.hashHint == e.sha1
  {
    stem, ext := SplitName(e.name);
    ExtIsSplit(e.name, stem, ext);
    names := ProjectPath(rules, e);
    assert Project(rules, e) == Classify(rules, e, CleanRooted(TrimSpace(e.relativePath)));
  }

  /** Segments without a backslash, the first one in first place, are segments still. */
  predicate KeepsPlain(parts: seq<string>, slashed: seq<string>) {
    && parts != [] && slashed != [] && ('\\' !in parts[0] ==> slashed[0] == parts[0])
    && forall i :: 1 <= i < |parts| ==> PlainIn(parts[i], slashed[1..])
  }

  predicate PlainIn(part: string, slashed: seq<string>) { '\\' !in part ==> part in slashed }

  lemma KeepsPlainNext(c: char, parts: seq<string>, slashed: seq<string>)
    requires KeepsPlain(parts, slashed)
    ensures KeepsPlain([""] + parts, [""] + slashed)
    ensures KeepsPlain([[c] + parts[0]] + parts[1..], [[c] + slashed[0]] + slashed[1..])
    ensures KeepsPlain([['\\'] + parts[0]] + parts[1..], [""] + slashed)
  {
    assert forall i :: 1 <= i < |parts| ==> PlainIn(parts[i], slashed[1..]);
    forall i | 1 <= i < |[""] + parts| ensures PlainIn(([""] + parts)[i], slashed) {
      if i > 1 { assert PlainIn(parts[i - 1], slashed[1..]); }
    }
    assert ([""] + slashed)[1..] == slashed;
  }

  /** Turning backslashes into slashes keeps the segments that have none. */
  lemma {:induction false} SlashedSplit(path: string)
    ensures KeepsPlain(Split(path, '/'), Split(Slashed(path), '/'))
  {
    if path == [] {
    } else {
      SlashedSplit(path[1..]);
      assert Slashed(path)[1..] == Slashed(path[1..]);
      KeepsPlainNext(path[0], Split(path[1..], '/'), Split(Slashed(path[1..]), '/'));
    }
  }

  lemma StepsUpStay(path: string)
    requires ".." in Split(path, '/')
    ensures ".." in Split(Slashed(path), '/')
  {
    SlashedSplit(path);
    var parts := Split(path, '/');
    var i :| 0 <= i < |parts| && parts[i] == "..";
    assert '\\' !in parts[i];
    if i > 0 { assert PlainIn(parts[i], Split(Slashed(path), '/')[1..]); }
  }

  // ---- What is ignored ----------------------------------------------------------------------

  function LowerAll(parts: seq<string>): (r: seq<string>)
    ensures |r| == |parts| && forall i :: 0 <= i < |r| ==> r[i] == Lower(parts[i])
  {
    seq(|parts|, i requires 0 <= i < |parts| => Lower(parts[i]))
  }

  lemma LowerAllNext(c: char, parts: seq<string>)
    requires parts != []
    ensures LowerAll([""] + parts) == [""] + LowerAll(parts)
    ensures LowerAll([[c] + parts[0]] + parts[1..]) == [[LowerChar(c)] + LowerAll(parts)[0]] + LowerAll(parts)[1..]
  {
    assert Lower([c] + parts[0]) == [LowerChar(c)] + Lower(parts[0]);
  }

  lemma {:induction false} SplitLower(s: string)
    ensures Split(Lower(s), '/') == LowerAll(Split(s, '/'))
  {
    if s == [] {
    } else {
      SplitLower(s[1..]);
      assert Lower(s)[1..] == Lower(s[1..]);
      LowerAllNext(s[0], Split(s[1..], '/'));
      assert s[0] == '/' <==> LowerChar(s[0]) == '/';
    }
  }

  /**
   A path is ignored exactly when one of its segments is the recycle directory, or it contains a pattern that is not
   blank, both without regard to case.
   */
  lemma IgnoreMeaning(path: string, patterns: seq<string>)
    ensures ShouldIgnore(path, patterns) <==>
            || (exists i :: 0 <= i < |Split(path, '/')| && Lower(Split(path, '/')[i]) == ".ohmycine-recycle")
            || (exists i, j :: 0 <= i < |patterns| && 0 <= j <= |path| && TrimSpace(patterns[i]) != ""
                               && OccursFolded(path, TrimSpace(patterns[i]), j))
  {
    RecycleMeaning(path);
    forall i | 0 <= i < |patterns|
      ensures MatchesPattern(Lower(path), patterns, i) <==>
              && TrimSpace(patterns[i]) != ""
              && exists j :: 0 <= j <= |path| && OccursFolded(path, TrimSpace(patterns[i]), j)
    {
      ContainsFolded(path, TrimSpace(patterns[i]));
    }
  }

  lemma RecycleMeaning(path: string)
    ensures RECYCLE in Split(TrimSlashesRight(TrimSlashesLeft(Lower(path))), '/') <==>
            exists i :: 0 <= i < |Split(path, '/')| && Lower(Split(path, '/')[i]) == ".ohmycine-recycle"
  {
    RecycleSegment(Lower(path));
    SplitLower(path);
    if RECYCLE in Split(Lower(path), '/') {
      var i :| 0 <= i < |Split(Lower(path), '/')| && Split(Lower(path), '/')[i] == RECYCLE;
      assert Lower(Split(path, '/')[i]) == RECYCLE;
    }
  }

  // ---- What is kept -------------------------------------------------------------------------

  /** The facts of an entry that a file carries. */
  function FileFacts(e: Entry): File { File(e.relativePath, e.id, true, e.size, e.modifiedAt) }

  /** A wanted extension makes a well-formed, not ignored entry a file with the entry's facts, whatever its stem. */
  lemma WantedIsFile(rules: Rules, e: Entry, names: seq<string>, stem: string, tail: string)
    requires names != [] && GoodNames(names) && e.relativePath == Rooted(names)
    requires !e.isDir && !ShouldIgnore(e.relativePath, rules.ignores)
    requires e.name == stem + "." + tail && '.' !in tail && '/' !in tail && Lower("." + tail) in rules.extensions
    ensures Project(rules, e) == FileItem(FileFacts(e))
  {
    ProjectGood(rules, e, names);
    ExtFromDot(stem, tail);
  }

  /** The same for an asset extension that is no file extension. */
  lemma WantedIsAsset(rules: Rules, e: Entry, names: seq<string>, stem: string, tail: string)
    requires names != [] && GoodNames(names) && e.relativePath == Rooted(names)
    requires !e.isDir && !ShouldIgnore(e.relativePath, rules.ignores)
    requires e.name == stem + "." + tail && '.' !in tail && '/' !in tail
    requires Lower("." + tail) !in rules.extensions && Lower("." + tail) in rules.assetExtensions
    ensures Project(rules, e) ==
            AssetItem(Asset(e.relativePath, e.id, e.parentId, e.name, Lower("." + tail), e.size, e.modifiedAt, e.sha1))
  {
    ProjectGood(rules, e, names);
    ExtFromDot(stem, tail);
  }

  /** No earlier file or asset shares the path or the provider identity of entry k. */
  ghost predicate Unrivalled(rules: Rules, entries: seq<Entry>, k: nat)
    requires k < |entries|
  {
    forall j :: 0 <= j < k ==> RivalFree(Project(rules, entries[j]), Project(rules, entries[k]))
  }

  predicate RivalFree(a: Projected, b: Projected) { a.Keyed() && b.Keyed() ==> !Conflict(a, b) }

  lemma {:induction false} KeptIsThere(items: seq<Projected>, n: nat, k: nat)
    requires k < n <= |items| && Kept(items, k) && items[k].FileItem?
    ensures items[k].file in KeptFiles(items, n)
  {
    if k == n - 1 {
    } else {
      KeptIsThere(items, n - 1, k);
    }
  }

  lemma UnrivalledIsKept(rules: Rules, entries: seq<Entry>, k: nat)
    requires k < |entries| && Unrivalled(rules, entries, k) && Project(rules, entries[k]).Keyed()
    ensures Kept(Items(rules, entries), k)
  {
    var items := Items(rules, entries);
    forall j | 0 <= j < k ensures !Blocks(items, j, k) {
      assert RivalFree(Project(rules, entries[j]), Project(rules, entries[k]));
    }
  }

  /** Such a file is in the streamed and, within the entry limit, in the bulk snapshot. */
  lemma WantedIsFound(rules: Rules, tree: Tree, k: nat, names: seq<string>, stem: string, tail: string)
    requires k < |tree.entries| && Unrivalled(rules, tree.entries, k)
    requires var e := tree.entries[k];
             && names != [] && GoodNames(names) && e.relativePath == Rooted(names)
             && !e.isDir && !ShouldIgnore(e.relativePath, rules.ignores)
             && e.name == stem + "." + tail && '.' !in tail && '/' !in tail && Lower("." + tail) in rules.extensions
    ensures FileFacts(tree.entries[k]) in StreamResult(rules, tree).files
    ensures Fold(Items(rules, tree.entries)).Accepted() <= MAX_ENTRIES ==>
              FileFacts(tree.entries[k]) in BulkResult(rules, tree).files
  {
    var items := Items(rules, tree.entries);
    WantedIsFile(rules, tree.entries[k], names, stem, tail);
    UnrivalledIsKept(rules, tree.entries, k);
    KeptIsThere(items, |items|, k);
    FoldKeeps(items, |items|);
    assert items[..|items|] == items;
    InSorted(tree, Fold(items), Fold(items).Accepted() >= MAX_ENTRIES, FileFacts(tree.entries[k]));
    CutCounts(items);
    if Cut(items, 0) == |items| { InSorted(tree, Fold(items), false, FileFacts(tree.entries[k])); }
  }

  lemma InSorted(tree: Tree, acc: Acc, cut: bool, f: File)
    requires f in acc.files
    ensures f in SortedResult(Snapshot(tree, acc, cut)).files
  {
    SortedResultSorts(Snapshot(tree, acc, cut));
    SameMembers(SortedResult(Snapshot(tree, acc, cut)).files, acc.files);
  }
}
