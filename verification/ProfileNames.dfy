/** Allocation of a free name for a profile copied during the naming migration. */
module ProfileNames {
  import opened Text

  const MAX_BASE: nat := 96
  const MAX_NAME: nat := 128
  const MAX_SUFFIX: nat := 1000
  const UINT_LIMIT: nat := 0x1_0000_0000_0000_0000

  /** truncateRunes; one character is one rune. */
  function Truncate(s: string, maximum: nat): string {
    if |s| <= maximum then s else s[..maximum]
  }

  function Digit(d: nat): char
    requires d < 10
  {
    '0' + d as char
  }

  /** Decimal notation. */
  function Decimal(n: nat): (s: string)
    ensures s != [] && '0' <= s[|s| - 1] <= '9'
  {
    if n < 10 then [Digit(n)] else Decimal(n / 10) + [Digit(n % 10)]
  }

  function Value(s: string): nat
    requires forall i :: 0 <= i < |s| ==> '0' <= s[i] <= '9'
  {
    if s == [] then 0 else 10 * Value(s[..|s| - 1]) + (s[|s| - 1] - '0') as nat
  }

  lemma {:induction false} DecimalValue(n: nat)
    ensures forall i :: 0 <= i < |Decimal(n)| ==> '0' <= Decimal(n)[i] <= '9'
    ensures Value(Decimal(n)) == n
  {
    if n >= 10 {
      DecimalValue(n / 10);
      assert Decimal(n)[..|Decimal(n)| - 1] == Decimal(n / 10);
    } else {
      assert [Digit(n)][..0] == [];
    }
  }

  function Power10(d: nat): nat { if d == 0 then 1 else 10 * Power10(d - 1) }

  lemma {:induction false} DecimalLength(n: nat, d: nat)
    requires 0 < d && n < Power10(d)
    ensures |Decimal(n)| <= d
  {
    if n < 10 {
    } else {
      DecimalLength(n / 10, d - 1);
    }
  }

  lemma SmallDecimals(libraryId: nat, k: nat)
    requires libraryId < UINT_LIMIT && k <= MAX_SUFFIX
    ensures |Decimal(libraryId)| <= 20 && |Decimal(k)| <= 4
  {
    assert Power10(4) == 10000;
    assert Power10(8) == 10000 * Power10(4);
    assert Power10(12) == 10000 * Power10(8);
    assert Power10(16) == 10000 * Power10(12);
    assert Power10(20) == 10000 * Power10(16);
    DecimalLength(libraryId, 20);
    DecimalLength(k, 4);
  }

  const FALLBACK := "媒体规则"
  const MARKER := "（旧命名-"
  const CLOSE := "）"

  function Stem(source: string): string {
    var trimmed := Truncate(TrimSpace(source), MAX_BASE);
    if trimmed == "" then FALLBACK else trimmed
  }

  function Base(source: string, libraryId: nat): string {
    Stem(source) + MARKER + Decimal(libraryId) + CLOSE
  }

  function Suffixed(base: string, k: nat): string { if k > 1 then base + "-" + Decimal(k) else base }

  function Candidate(source: string, libraryId: nat, k: nat): string {
    Truncate(Suffixed(Base(source, libraryId), k), MAX_NAME)
  }

  function Normalized(name: string): string { Lower(TrimSpace(name)) }

  // ---- No candidate is cut, and no two collide ----------------------------------------------

  lemma StemHead(source: string)
    ensures Stem(source) != [] && |Stem(source)| <= MAX_BASE && !IsSpace(Stem(source)[0])
  {
    var before, behind := TrimMeaning(source);
  }

  /** The longest candidate has 96 + 6 + 20 + 5 characters: truncation never reaches the suffix. */
  lemma CandidateFits(source: string, libraryId: nat, k: nat)
    requires libraryId < UINT_LIMIT && k <= MAX_SUFFIX
    ensures Candidate(source, libraryId, k) == Suffixed(Base(source, libraryId), k)
    ensures |Candidate(source, libraryId, k)| <= 127
  {
    StemHead(source);
    SmallDecimals(libraryId, k);
    assert |MARKER| == 5 && |CLOSE| == 1;
  }

  lemma StemMeaning(before: string, name: string, behind: string)
    requires forall i :: 0 <= i < |before| ==> IsSpace(before[i])
    requires forall i :: 0 <= i < |behind| ==> IsSpace(behind[i])
    requires name == "" || (!IsSpace(name[0]) && !IsSpace(name[|name| - 1]))
    ensures Stem(before + name + behind) ==
            if name == "" then "媒体规则" else if |name| > 96 then name[..96] else name
  {
    TrimAround(before, name, behind);
  }

  lemma Numbered(base: string, k: nat)
    requires k >= 1
    ensures Suffixed(base, k) == base + (if k == 1 then "" else "-" + Decimal(k))
  {
    if k == 1 { assert base + "" == base; } else { assert base + "-" + Decimal(k) == base + ("-" + Decimal(k)); }
  }

  /**
   The first candidate is the name of the source without white space around it, at most 96 characters of it, or the
   fallback when nothing is left, followed by the mark with the library; a later one has its number behind a dash.
   */
  lemma CandidateMeaning(before: string, name: string, behind: string, libraryId: nat, k: nat)
    requires libraryId < UINT_LIMIT && 1 <= k <= MAX_SUFFIX
    requires forall i :: 0 <= i < |before| ==> IsSpace(before[i])
    requires forall i :: 0 <= i < |behind| ==> IsSpace(behind[i])
    requires name == "" || (!IsSpace(name[0]) && !IsSpace(name[|name| - 1]))
    ensures var kept := if name == "" then "媒体规则" else if |name| > 96 then name[..96] else name;
            Candidate(before + name + behind, libraryId, k) ==
            kept + "（旧命名-" + Decimal(libraryId) + "）" + (if k == 1 then "" else "-" + Decimal(k))
  {
    var source := before + name + behind;
    StemMeaning(before, name, behind);
    CandidateFits(source, libraryId, k);
    Numbered(Base(source, libraryId), k);
  }

  lemma NormalizedCandidate(source: string, libraryId: nat, k: nat)
    requires libraryId < UINT_LIMIT && k <= MAX_SUFFIX
    ensures Normalized(Candidate(source, libraryId, k)) == Lower(Suffixed(Base(source, libraryId), k))
  {
    CandidateFits(source, libraryId, k);
    StemHead(source);
    var base, name := Base(source, libraryId), Candidate(source, libraryId, k);
    assert base[|base| - 1] == CLOSE[0];
    assert name[0] == Stem(source)[0];
    assert !IsSpace(name[|name| - 1]);
  }

  lemma LowerSuffix(base: string, k: nat)
    requires k > 1
    ensures Lower(Suffixed(base, k)) == Lower(base) + "-" + Decimal(k)
  {
    DecimalValue(k);
    var left, right := Lower(Suffixed(base, k)), Lower(base) + "-" + Decimal(k);
    assert forall i :: 0 <= i < |left| ==> left[i] == right[i];
  }

  /** Different suffixes give different normalized names. */
  lemma CandidatesDiffer(source: string, libraryId: nat, i: nat, j: nat)
    requires libraryId < UINT_LIMIT && 1 <= i < j <= MAX_SUFFIX
    ensures Normalized(Candidate(source, libraryId, i)) != Normalized(Candidate(source, libraryId, j))
  {
    var base := Base(source, libraryId);
    NormalizedCandidate(source, libraryId, i);
    NormalizedCandidate(source, libraryId, j);
    LowerSuffix(base, j);
    if i > 1 {
      LowerSuffix(base, i);
      var head := Lower(base) + "-";
      assert (head + Decimal(i))[|head|..] == Decimal(i) && (head + Decimal(j))[|head|..] == Decimal(j);
      DecimalValue(i);
      DecimalValue(j);
    }
  }

  // ---- Allocation ---------------------------------------------------------------------------

  datatype Allocation = Allocated(name: string, normalized: string) | Exhausted

  predicate Free(taken: set<string>, source: string, libraryId: nat, k: nat) {
    Normalized(Candidate(source, libraryId, k)) !in taken
  }

  /** uniqueMigratedProfileName: the first candidate whose normalized form is not taken. */
  method UniqueMigratedProfileName(taken: set<string>, source: string, libraryId: nat) returns (r: Allocation)
    ensures r.Exhausted? <==> forall k :: 1 <= k <= MAX_SUFFIX ==> !Free(taken, source, libraryId, k)
    ensures r.Allocated? ==>
              && |r.name| <= MAX_NAME && r.normalized == Normalized(r.name) && r.normalized !in taken
              && exists k :: 1 <= k <= MAX_SUFFIX && r.name == Candidate(source, libraryId, k)
                             && forall j :: 1 <= j < k ==> !Free(taken, source, libraryId, j)
  {
    var suffix := 1;
    while suffix <= MAX_SUFFIX
      invariant 1 <= suffix <= MAX_SUFFIX + 1
      invariant forall j :: 1 <= j < suffix ==> !Free(taken, source, libraryId, j)
    {
      var name := Candidate(source, libraryId, suffix);
      if Normalized(name) !in taken {
        assert Free(taken, source, libraryId, suffix);
        return Allocated(name, Normalized(name));
      }
      suffix := suffix + 1;
    }
    return Exhausted;
  }

  lemma {:induction false} TakenMany(taken: set<string>, source: string, libraryId: nat, n: nat)
    requires libraryId < UINT_LIMIT && n <= MAX_SUFFIX
    requires forall k :: 1 <= k <= n ==> !Free(taken, source, libraryId, k)
    ensures |taken| >= n
  {
    if n == 0 {
    } else {
      var last := Normalized(Candidate(source, libraryId, n));
      assert !Free(taken, source, libraryId, n);
      forall k | 1 <= k <= n - 1 ensures !Free(taken - {last}, source, libraryId, k) {
        assert !Free(taken, source, libraryId, k);
        CandidatesDiffer(source, libraryId, k, n);
      }
      TakenMany(taken - {last}, source, libraryId, n - 1);
    }
  }

  /** Pigeonhole: fewer than 1000 taken names always leave a free candidate. */
  lemma FreeCandidateExists(taken: set<string>, source: string, libraryId: nat)
    requires libraryId < UINT_LIMIT && |taken| < MAX_SUFFIX
    ensures exists k :: 1 <= k <= MAX_SUFFIX && Free(taken, source, libraryId, k)
  {
    if forall k :: 1 <= k <= MAX_SUFFIX ==> !Free(taken, source, libraryId, k) {
      TakenMany(taken, source, libraryId, MAX_SUFFIX);
    }
  }
}
