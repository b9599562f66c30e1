/** Strings as the Go sources use them: byte-order comparison, splitting, trimming and lower-casing. */
module Text {

  /** The order of Go's `<` on strings. */
  predicate Less(a: string, b: string) {
    b != [] && (a == [] || a[0] < b[0] || (a[0] == b[0] && Less(a[1..], b[1..])))
  }

  lemma {:induction false} LessIrreflexive(a: string)
    ensures !Less(a, a)
  {
    if a == [] {
    } else {
      LessIrreflexive(a[1..]);
    }
  }

  lemma {:induction false} LessTransitive(a: string, b: string, c: string)
    requires Less(a, b) && Less(b, c)
    ensures Less(a, c)
  {
    if a == [] || a[0] != b[0] || b[0] != c[0] {
    } else {
      LessTransitive(a[1..], b[1..], c[1..]);
    }
  }

  lemma {:induction false} LessTotal(a: string, b: string)
    ensures a == b || Less(a, b) || Less(b, a)
  {
    if a == [] || b == [] || a[0] != b[0] {
    } else {
      LessTotal(a[1..], b[1..]);
      if a[1..] == b[1..] { assert a == [a[0]] + a[1..] == b; }
    }
  }

  /** The strings agree up to position k, where the first one ends or has the smaller character. */
  predicate SmallerAt(a: string, b: string, k: nat) {
    k <= |a| && k < |b| && a[..k] == b[..k] && (k == |a| || a[k] < b[k])
  }

  /** The order is lexicographic. */
  lemma {:induction false} LessMeaning(a: string, b: string)
    ensures Less(a, b) <==> exists k :: 0 <= k <= |a| && SmallerAt(a, b, k)
  {
    if b == [] {
    } else if a == [] || a[0] != b[0] {
      assert SmallerAt(a, b, 0) <==> a == [] || a[0] < b[0];
      forall k | 0 < k <= |a| ensures !SmallerAt(a, b, k) {
        if SmallerAt(a, b, k) { SameHead(a, b, k); }
      }
    } else {
      LessMeaning(a[1..], b[1..]);
      forall k | 0 <= k < |a| ensures SmallerAt(a, b, k + 1) <==> SmallerAt(a[1..], b[1..], k) {
        SmallerNext(a, b, k);
      }
      if k :| 0 <= k <= |a| && SmallerAt(a, b, k) {
        assert k > 0 && SmallerAt(a[1..], b[1..], k - 1);
      }
      if k :| 0 <= k <= |a[1..]| && SmallerAt(a[1..], b[1..], k) { assert SmallerAt(a, b, k + 1); }
    }
  }

  lemma SameHead(a: string, b: string, k: nat)
    requires 0 < k && SmallerAt(a, b, k)
    ensures a[0] == b[0]
  {
    assert a[..k][0] == b[..k][0];
  }

  lemma SmallerNext(a: string, b: string, k: nat)
    requires a != [] && b != [] && a[0] == b[0]
    ensures SmallerAt(a, b, k + 1) <==> SmallerAt(a[1..], b[1..], k)
  {
    if k + 1 <= |a| && k + 1 < |b| {
      assert a[..k + 1] == [a[0]] + a[1..][..k] && b[..k + 1] == [b[0]] + b[1..][..k];
      assert a[..k + 1] == b[..k + 1] <==> a[1..][..k] == b[1..][..k] by {
        if a[..k + 1] == b[..k + 1] { assert a[1..][..k] == a[..k + 1][1..] && b[1..][..k] == b[..k + 1][1..]; }
      }
    }
  }

  predicate IsSpace(c: char) {
    || c in {'\t', '\n', '\U{0B}', '\U{0C}', '\r', ' ', '\U{85}', '\U{A0}', '\U{1680}'}
    || c in {'\U{2028}', '\U{2029}', '\U{202F}', '\U{205F}', '\U{3000}'}
    || '\U{2000}' <= c <= '\U{200A}'
  }

  function TrimLeft(s: string): string {
    if s != [] && IsSpace(s[0]) then TrimLeft(s[1..]) else s
  }

  function TrimRight(s: string): string {
    if s != [] && IsSpace(s[|s| - 1]) then TrimRight(s[..|s| - 1]) else s
  }

  /** strings.TrimSpace */
  function TrimSpace(s: string): string {
    TrimRight(TrimLeft(s))
  }

  function LowerChar(c: char): char {
    if 'A' <= c <= 'Z' then c + ('a' - 'A') else c
  }

  /** Two characters fold alike exactly when they are equal or the two cases of one letter. */
  lemma SameLetter(c: char, d: char)
    ensures LowerChar(c) == LowerChar(d) <==>
            c == d || ('A' <= c <= 'Z' && d as int == c as int + 32) || ('A' <= d <= 'Z' && c as int == d as int + 32)
  {
  }

  /** strings.ToLower: a mapping of one character at a time. */
  function Lower(s: string): (r: string)
    ensures |r| == |s|
    ensures forall i :: 0 <= i < |s| ==> r[i] == LowerChar(s[i])
  {
    seq(|s|, i requires 0 <= i < |s| => LowerChar(s[i]))
  }

  predicate HasPrefix(s: string, p: string) {
    |p| <= |s| && s[..|p|] == p
  }

  predicate OccursAt(s: string, pattern: string, i: nat) {
    i + |pattern| <= |s| && s[i..i + |pattern|] == pattern
  }

  /** strings.Contains */
  predicate Contains(s: string, pattern: string) {
    exists i :: 0 <= i <= |s| && OccursAt(s, pattern, i)
  }

  lemma ContainsExtends(s: string, more: string, pattern: string)
    requires Contains(s, pattern)
    ensures Contains(s + more, pattern)
  {
    var i :| 0 <= i <= |s| && OccursAt(s, pattern, i);
    assert (s + more)[i..i + |pattern|] == s[i..i + |pattern|];
    assert OccursAt(s + more, pattern, i);
  }

  /** The pattern occurs at position j without regard to case. */
  predicate OccursFolded(s: string, pattern: string, j: nat) {
    j + |pattern| <= |s| && forall k :: 0 <= k < |pattern| ==> LowerChar(s[j + k]) == LowerChar(pattern[k])
  }

  lemma FoldedAt(s: string, pattern: string, j: nat)
    ensures OccursAt(Lower(s), Lower(pattern), j) <==> OccursFolded(s, pattern, j)
  {
    if j + |pattern| <= |s| {
      var part := Lower(s)[j..j + |pattern|];
      assert forall k :: 0 <= k < |pattern| ==> part[k] == LowerChar(s[j + k]);
      if part == Lower(pattern) { assert forall k :: 0 <= k < |pattern| ==> part[k] == LowerChar(pattern[k]); }
    }
  }

  lemma ContainsFolded(s: string, pattern: string)
    ensures Contains(Lower(s), Lower(pattern)) <==> exists j :: 0 <= j <= |s| && OccursFolded(s, pattern, j)
  {
    forall j | 0 <= j <= |s| ensures OccursAt(Lower(s), Lower(pattern), j) <==> OccursFolded(s, pattern, j) {
      FoldedAt(s, pattern, j);
    }
    if Contains(Lower(s), Lower(pattern)) {
      var j :| 0 <= j <= |Lower(s)| && OccursAt(Lower(s), Lower(pattern), j);
      assert OccursFolded(s, pattern, j);
    }
    if j :| 0 <= j <= |s| && OccursFolded(s, pattern, j) { assert OccursAt(Lower(s), Lower(pattern), j); }
  }

  /** Trimming cuts off exactly the white space at both ends. */
  lemma {:induction false} TrimLeftMeaning(s: string) returns (before: string)
    ensures s == before + TrimLeft(s) && forall i :: 0 <= i < |before| ==> IsSpace(before[i])
    ensures TrimLeft(s) != "" ==> !IsSpace(TrimLeft(s)[0])
  {
    if s == [] || !IsSpace(s[0]) {
      before := "";
    } else {
      before := TrimLeftMeaning(s[1..]);
      before := [s[0]] + before;
    }
  }

  lemma {:induction false} TrimRightMeaning(s: string) returns (behind: string)
    ensures s == TrimRight(s) + behind && forall i :: 0 <= i < |behind| ==> IsSpace(behind[i])
    ensures TrimRight(s) != "" ==> !IsSpace(TrimRight(s)[|TrimRight(s)| - 1])
  {
    if s == [] || !IsSpace(s[|s| - 1]) {
      behind := "";
    } else {
      behind := TrimRightMeaning(s[..|s| - 1]);
      behind := behind + [s[|s| - 1]];
    }
  }

  lemma TrimMeaning(s: string) returns (before: string, behind: string)
    ensures s == before + TrimSpace(s) + behind
    ensures forall i :: 0 <= i < |before| ==> IsSpace(before[i])
    ensures forall i :: 0 <= i < |behind| ==> IsSpace(behind[i])
    ensures TrimSpace(s) != "" ==> !IsSpace(TrimSpace(s)[0]) && !IsSpace(TrimSpace(s)[|TrimSpace(s)| - 1])
  {
    before := TrimLeftMeaning(s);
    behind := TrimRightMeaning(TrimLeft(s));
  }

  /** What is left is empty exactly when everything is white space. */
  lemma BlankMeaning(s: string)
    ensures TrimSpace(s) == "" <==> forall i :: 0 <= i < |s| ==> IsSpace(s[i])
  {
    var before, behind := TrimMeaning(s);
    if TrimSpace(s) == "" {
      assert s == before + behind;
    } else {
      assert s[|before|] == TrimSpace(s)[0];
    }
  }

  lemma {:induction false} TrimLeftAround(before: string, s: string)
    requires (forall i :: 0 <= i < |before| ==> IsSpace(before[i])) && (s == "" || !IsSpace(s[0]))
    ensures TrimLeft(before + s) == s
  {
    if before == "" {
      assert before + s == s;
    } else {
      TrimLeftAround(before[1..], s);
      assert (before + s)[1..] == before[1..] + s;
    }
  }

  lemma {:induction false} TrimRightAround(s: string, behind: string)
    requires (forall i :: 0 <= i < |behind| ==> IsSpace(behind[i])) && (s == "" || !IsSpace(s[|s| - 1]))
    ensures TrimRight(s + behind) == s
  {
    if behind == "" {
      assert s + behind == s;
    } else {
      TrimRightAround(s, behind[..|behind| - 1]);
      assert (s + behind)[..|s + behind| - 1] == s + behind[..|behind| - 1];
    }
  }

  /** Nothing else has these properties. */
  lemma TrimAround(before: string, s: string, behind: string)
    requires forall i :: 0 <= i < |before| ==> IsSpace(before[i])
    requires forall i :: 0 <= i < |behind| ==> IsSpace(behind[i])
    requires s == "" || (!IsSpace(s[0]) && !IsSpace(s[|s| - 1]))
    ensures TrimSpace(before + s + behind) == s
  {
    assert before + s + behind == before + (s + behind);
    if s == "" {
      assert before + s + behind == before + behind + "";
      TrimLeftAround(before + behind, "");
    } else {
      TrimLeftAround(before, s + behind);
      TrimRightAround(s, behind);
    }
  }

  /** strings.Split with a one-character separator. */
  function Split(s: string, sep: char): (r: seq<string>)
    ensures |r| >= 1
  {
    if s == [] then [""]
    else if s[0] == sep then [""] + Split(s[1..], sep)
    else var rest := Split(s[1..], sep); [[s[0]] + rest[0]] + rest[1..]
  }

  lemma HeadTail<T>(a: seq<T>, b: seq<T>)
    requires a != []
    ensures (a + b)[0] == a[0] && (a + b)[1..] == a[1..] + b
  {
  }

  /** Splitting turns a joined pair into the concatenation of the parts. */
  lemma {:induction false} SplitJoin(a: string, b: string, sep: char)
    ensures Split(a + [sep] + b, sep) == Split(a, sep) + Split(b, sep)
  {
    var rest := [sep] + b;
    assert a + [sep] + b == a + rest;
    if a == [] {
      assert a + rest == rest && rest[1..] == b;
    } else {
      HeadTail(a, rest);
      HeadTail(Split(a[1..], sep), Split(b, sep));
      assert a[1..] + rest == a[1..] + [sep] + b;
      SplitJoin(a[1..], b, sep);
    }
  }

  lemma {:induction false} SplitWithout(s: string, sep: char)
    requires sep !in s
    ensures Split(s, sep) == [s]
  {
    if s == [] {
    } else {
      SplitWithout(s[1..], sep);
      assert s == [s[0]] + s[1..];
    }
  }

  /** strings.Join with a one-character separator, each part preceded by it. */
  function Rooted(parts: seq<string>): string {
    if parts == [] then "" else Rooted(parts[..|parts| - 1]) + "/" + parts[|parts| - 1]
  }
}
