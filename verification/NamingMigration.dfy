/**
 The move of naming templates from libraries to classification profiles. A profile may be shared by
 libraries with different templates, so each distinct combination gets its own copy of the profile.
 */
module NamingMigration {
  import opened ProfileNames

  datatype Templates = Templates(movieDirectory: string, movieFilename: string, tvDirectory: string, tvFilename: string)

  datatype Kind = System | Custom

  datatype Profile = Profile(
    name: string, normalized: string, kind: Kind, isProtected: bool, schemaVersion: int, rules: string,
    recognitionRules: string, templates: Templates, revision: nat)

  datatype Library = Library(profileId: nat, templates: Templates, profileRevision: nat, reclassificationDue: bool)

  /** The profile of a library together with the library's own templates. */
  datatype Key = Key(profileId: nat, templates: Templates)

  datatype Outcome = Migrated | MissingProfile(libraryId: nat) | NamesExhausted

  function KeyOf(library: Library): Key { Key(library.profileId, library.templates) }

  /** profileNamingMatchesLegacy */
  predicate Fits(profiles: map<nat, Profile>, library: Library)
    requires library.profileId in profiles
  {
    profiles[library.profileId].templates == library.templates
  }

  function Names(profiles: map<nat, Profile>): set<string> {
    set id | id in profiles :: profiles[id].normalized
  }

  ghost predicate UniqueNames(profiles: map<nat, Profile>) {
    forall a, b :: a in profiles && b in profiles && profiles[a].normalized == profiles[b].normalized ==> a == b
  }

  /** `order` lists every library once, as the query ordered by identity does. */
  ghost predicate Enumerates(order: seq<nat>, libraries: map<nat, Library>) {
    && (forall i, j :: 0 <= i < j < |order| ==> order[i] != order[j])
    && (forall id :: id in order <==> id in libraries)
  }

  /** No row of `before` changed or went away. */
  ghost predicate Extends(before: map<nat, Profile>, after: map<nat, Profile>) {
    forall id :: id in before ==> id in after && after[id] == before[id]
  }

  /** The copy carries the templates of the key and the rules of the key's profile. */
  ghost predicate Copies(before: map<nat, Profile>, key: Key, copy: Profile) {
    && key.profileId in before
    && copy.templates == key.templates
    && copy.rules == before[key.profileId].rules && copy.recognitionRules == before[key.profileId].recognitionRules
    && copy.schemaVersion == before[key.profileId].schemaVersion
    && copy.kind == Custom && !copy.isProtected && copy.revision == 1
  }

  /** Migrated keys and new profiles correspond one to one. */
  ghost predicate OnePerKey(before: map<nat, Profile>, after: map<nat, Profile>, migrated: map<Key, nat>) {
    && (forall key :: key in migrated ==>
          migrated[key] !in before && migrated[key] in after && Copies(before, key, after[migrated[key]]))
    && (forall a, b :: a in migrated && b in migrated && migrated[a] == migrated[b] ==> a == b)
    && (forall id :: id in after && id !in before ==> exists key :: key in migrated && migrated[key] == id)
  }

  /** What became of one library. */
  ghost predicate Settled(before: map<nat, Profile>, was: Library, now: Library, migrated: map<Key, nat>) {
    && was.profileId in before
    && if Fits(before, was) then now == was
       else KeyOf(was) in migrated
            && now == was.(profileId := migrated[KeyOf(was)], profileRevision := 1, reclassificationDue := true)
  }

  /** Every migrated key belongs to a library whose profile did not fit. */
  ghost predicate Needed(before: map<nat, Profile>, libraries: map<nat, Library>, migrated: map<Key, nat>) {
    forall key :: key in migrated ==>
      exists id :: id in libraries && KeyOf(libraries[id]) == key && libraries[id].profileId in before
                   && !Fits(before, libraries[id])
  }

  /** The library's profile now carries the library's own templates and the rules its old profile had. */
  ghost predicate SameMeaning(before: map<nat, Profile>, was: Library, after: map<nat, Profile>, now: Library) {
    && was.profileId in before && now.profileId in after && now.templates == was.templates
    && after[now.profileId].templates == was.templates
    && after[now.profileId].rules == before[was.profileId].rules
    && after[now.profileId].recognitionRules == before[was.profileId].recognitionRules
    && after[now.profileId].schemaVersion == before[was.profileId].schemaVersion
  }

  /** Libraries share a profile afterwards exactly when they shared profile and templates before. */
  ghost predicate SameSharing(before: map<nat, Profile>, was: map<nat, Library>, now: map<nat, Library>) {
    forall a, b :: a in was && b in was && a in now && b in now ==>
      was[a].profileId in before && was[b].profileId in before ==>
      (now[a].profileId == now[b].profileId <==> KeyOf(was[a]) == KeyOf(was[b]))
  }

  lemma SharingPreserved(before: map<nat, Profile>, after: map<nat, Profile>, migrated: map<Key, nat>,
                         was: map<nat, Library>, now: map<nat, Library>)
    requires OnePerKey(before, after, migrated) && was.Keys == now.Keys
    requires forall id :: id in was ==> Settled(before, was[id], now[id], migrated)
    ensures SameSharing(before, was, now)
  {
    forall a, b | a in was && b in was
      ensures now[a].profileId == now[b].profileId <==> KeyOf(was[a]) == KeyOf(was[b])
    {
      assert Settled(before, was[a], now[a], migrated) && Settled(before, was[b], now[b], migrated);
    }
  }

  lemma {:induction false} NamesBounded(profiles: map<nat, Profile>)
    ensures |Names(profiles)| <= |profiles|
    decreases |profiles|
  {
    if profiles != map[] {
      var id :| id in profiles;
      var rest := profiles - {id};
      assert rest.Keys == profiles.Keys - {id};
      NamesBounded(rest);
      forall name | name in Names(profiles) ensures name in Names(rest) + {profiles[id].normalized} {
        var k :| k in profiles && profiles[k].normalized == name;
        if k != id { assert k in rest && rest[k].normalized == name; }
      }
      SubsetSize(Names(profiles), Names(rest) + {profiles[id].normalized});
    } else {
      assert Names(profiles) == {};
    }
  }

  lemma {:induction false} SubsetSize(a: set<string>, b: set<string>)
    requires a <= b
    ensures |a| <= |b|
  {
    if a == {} {
    } else {
      var x :| x in a;
      SubsetSize(a - {x}, b - {x});
    }
  }

  lemma ExhaustedMeansMany(profiles: map<nat, Profile>, source: string, libraryId: nat)
    requires forall k :: 1 <= k <= MAX_SUFFIX ==> !Free(Names(profiles), source, libraryId, k)
    ensures libraryId < UINT_LIMIT ==> |profiles| >= MAX_SUFFIX
  {
    if libraryId < UINT_LIMIT { TakenMany(Names(profiles), source, libraryId, MAX_SUFFIX); }
    NamesBounded(profiles);
  }

  lemma NewKey(before: map<nat, Profile>, mid: map<nat, Profile>, after: map<nat, Profile>, known: map<Key, nat>,
               key: Key, id: nat)
    requires OnePerKey(before, mid, known) && Extends(before, mid) && Extends(mid, after) && key !in known
    requires id !in mid && after.Keys == mid.Keys + {id} && Copies(before, key, after[id])
    ensures OnePerKey(before, after, known[key := id])
  {
    var next := known[key := id];
    forall other | other in after && other !in before ensures exists k :: k in next && next[k] == other {
      if other == id {
        assert next[key] == id;
      } else {
        var k :| k in known && known[k] == other;
        assert next[k] == other;
      }
    }
  }

  ghost predicate Grows(a: map<Key, nat>, b: map<Key, nat>) {
    forall key :: key in a ==> key in b && b[key] == a[key]
  }

  lemma SettledGrows(before: map<nat, Profile>, was: Library, now: Library, a: map<Key, nat>, b: map<Key, nat>)
    requires Settled(before, was, now, a) && Grows(a, b)
    ensures Settled(before, was, now, b)
  {
  }

  /** Libraries order[0..i) are settled, the others untouched. */
  ghost predicate SettledTo(before: map<nat, Profile>, was: map<nat, Library>, now: map<nat, Library>, order: seq<nat>,
                            i: nat, known: map<Key, nat>)
    requires i <= |order|
  {
    && now.Keys == was.Keys
    && (forall j :: 0 <= j < |order| ==> order[j] in was)
    && (forall j :: 0 <= j < i ==> Settled(before, was[order[j]], now[order[j]], known))
    && (forall j :: i <= j < |order| ==> now[order[j]] == was[order[j]])
  }

  lemma SettleNext(before: map<nat, Profile>, was: map<nat, Library>, now: map<nat, Library>, order: seq<nat>, i: nat,
                   known: map<Key, nat>, known': map<Key, nat>, library: Library)
    requires i < |order| && SettledTo(before, was, now, order, i, known) && Grows(known, known')
    requires forall j, k :: 0 <= j < k < |order| ==> order[j] != order[k]
    requires Settled(before, was[order[i]], library, known')
    ensures SettledTo(before, was, now[order[i] := library], order, i + 1, known')
  {
    var now' := now[order[i] := library];
    assert now'.Keys == now.Keys;
    forall j | 0 <= j < i + 1 ensures Settled(before, was[order[j]], now'[order[j]], known') {
      if j < i { SettledGrows(before, was[order[j]], now[order[j]], known, known'); }
    }
  }

  lemma Conclude(before: map<nat, Profile>, after: map<nat, Profile>, was: map<nat, Library>, now: map<nat, Library>,
                 order: seq<nat>, known: map<Key, nat>)
    requires Extends(before, after) && OnePerKey(before, after, known) && Enumerates(order, was)
    requires SettledTo(before, was, now, order, |order|, known)
    ensures SameSharing(before, was, now)
    ensures forall id :: id in now ==>
              SameMeaning(before, was[id], after, now[id]) && Settled(before, was[id], now[id], known)
  {
    forall id | id in now
      ensures SameMeaning(before, was[id], after, now[id]) && Settled(before, was[id], now[id], known)
    {
      assert id in order;
      var j :| 0 <= j < |order| && order[j] == id;
      assert Settled(before, was[order[j]], now[order[j]], known);
    }
    SharingPreserved(before, after, known, was, now);
  }

  lemma NeededNext(before: map<nat, Profile>, libraries: map<nat, Library>, known: map<Key, nat>, key: Key, id: nat,
                   library: nat)
    requires Needed(before, libraries, known)
    requires library in libraries && KeyOf(libraries[library]) == key && libraries[library].profileId in before
    requires !Fits(before, libraries[library])
    ensures Needed(before, libraries, known[key := id])
  {
    var next := known[key := id];
    forall k | k in next
      ensures exists i :: && i in libraries && KeyOf(libraries[i]) == k
                          && libraries[i].profileId in before && !Fits(before, libraries[i])
    {
      if k == key {
        assert library in libraries && KeyOf(libraries[library]) == k;
      } else {
        assert k in known;
      }
    }
  }

  /** The two tables the migration touches; identities are handed out in increasing order. */
  class Database {
    var profiles: map<nat, Profile>
    var libraries: map<nat, Library>
    var nextId: nat

    ghost predicate Valid()
      reads this
    {
      UniqueNames(profiles) && forall id :: id in profiles ==> id < nextId
    }

    constructor (profiles: map<nat, Profile>, libraries: map<nat, Library>, nextId: nat)
      requires UniqueNames(profiles) && forall id :: id in profiles ==> id < nextId
      ensures Valid() && this.profiles == profiles && this.libraries == libraries
    {
      this.profiles, this.libraries, this.nextId := profiles, libraries, nextId;
    }

    method FreeName(source: string, libraryId: nat) returns (name: string, normalized: string, ok: bool)
      ensures ok ==> normalized !in Names(profiles) && normalized == Normalized(name) && |name| <= MAX_NAME
      ensures !ok && libraryId < UINT_LIMIT ==> |profiles| >= MAX_SUFFIX
    {
      var allocation := UniqueMigratedProfileName(Names(profiles), source, libraryId);
      if allocation.Exhausted? {
        ExhaustedMeansMany(profiles, source, libraryId);
        return "", "", false;
      }
      return allocation.name, allocation.normalized, true;
    }

    /** Insert a copy of the profile under a free name and find it again by that name. */
    method InsertCopy(source: Profile, key: Key, libraryId: nat) returns (found: nat, ok: bool)
      requires Valid()
      modifies this`profiles, this`nextId
      ensures Valid() && Extends(old(profiles), profiles)
      ensures !ok ==> profiles == old(profiles)
      ensures !ok && libraryId < UINT_LIMIT ==> |profiles| >= MAX_SUFFIX
      ensures ok ==>
                && found !in old(profiles) && profiles.Keys == old(profiles).Keys + {found}
                && profiles[found] == Profile(profiles[found].name, profiles[found].normalized, Custom, false,
                                              source.schemaVersion, source.rules, source.recognitionRules,
                                              key.templates, 1)
    {
      var name, normalized;
      name, normalized, ok := FreeName(source.name, libraryId);
      if !ok { return 0, false; }
      var copy := Profile(name, normalized, Custom, false, source.schemaVersion, source.rules,
                          source.recognitionRules, key.templates, 1);
      forall id | id in profiles ensures profiles[id].normalized != copy.normalized {
        assert profiles[id].normalized in Names(profiles);
      }
      profiles := profiles[nextId := copy];
      nextId := nextId + 1;
      assert profiles[nextId - 1].normalized == copy.normalized;
      found :| found in profiles && profiles[found].normalized == copy.normalized;
      return found, true;
    }

    /** The profile that takes over the library's templates, copied on the first use of the key. */
    method ProfileFor(key: Key, libraryId: nat, known: map<Key, nat>, ghost before: map<nat, Profile>)
      returns (known': map<Key, nat>, ok: bool)
      requires Valid() && Extends(before, profiles) && OnePerKey(before, profiles, known) && key.profileId in before
      modifies this`profiles, this`nextId
      ensures Valid() && Extends(before, profiles) && Extends(old(profiles), profiles)
      ensures ok ==>
                && key in known' && OnePerKey(before, profiles, known') && Grows(known, known')
                && (known' == known || known' == known[key := known'[key]])
      ensures !ok && libraryId < UINT_LIMIT ==> |profiles| >= MAX_SUFFIX
    {
      if key in known { return known, true; }
      ghost var mid := profiles;
      var source := profiles[key.profileId];
      var id;
      id, ok := InsertCopy(source, key, libraryId);
      if ok {
        NewKey(before, mid, profiles, known, key, id);
        known' := known[key := id];
      } else {
        known' := known;
      }
    }

    /** migrateLibraryNamingIntoProfiles */
    method Migrate(order: seq<nat>) returns (outcome: Outcome, ghost migrated: map<Key, nat>)
      requires Valid() && Enumerates(order, libraries)
      modifies this
      ensures Valid() && Extends(old(profiles), profiles) && libraries.Keys == old(libraries).Keys
      ensures outcome.Migrated? ==>
                && OnePerKey(old(profiles), profiles, migrated)
                && Needed(old(profiles), old(libraries), migrated)
                && SameSharing(old(profiles), old(libraries), libraries)
                && forall id :: id in libraries ==>
                     && SameMeaning(old(profiles), old(libraries)[id], profiles, libraries[id])
                     && Settled(old(profiles), old(libraries)[id], libraries[id], migrated)
      ensures outcome.MissingProfile? ==>
                outcome.libraryId in old(libraries) && old(libraries)[outcome.libraryId].profileId !in old(profiles)
      ensures outcome.NamesExhausted? && (forall id :: id in old(libraries) ==> id < UINT_LIMIT) ==>
              |profiles| >= MAX_SUFFIX
    {
      ghost var before, was := profiles, libraries;
      var profilesById := profiles;
      var known: map<Key, nat> := map[];
      migrated := known;
      var i := 0;
      assert forall j :: 0 <= j < |order| ==> order[j] in order;
      while i < |order|
        invariant 0 <= i <= |order| && Valid() && Extends(before, profiles)
        invariant OnePerKey(before, profiles, known) && Needed(before, was, known)
        invariant SettledTo(before, was, libraries, order, i, known)
      {
        var library := libraries[order[i]];
        if library.profileId !in profilesById { return MissingProfile(order[i]), known; }
        var key := KeyOf(library);
        ghost var earlier := known;
        if profilesById[library.profileId].templates != library.templates {
          var ok;
          known, ok := ProfileFor(key, order[i], known, before);
          if !ok { return NamesExhausted, known; }
          if known != earlier { NeededNext(before, was, earlier, key, known[key], order[i]); }
          library := library.(profileId := known[key], profileRevision := 1, reclassificationDue := true);
        }
        SettleNext(before, was, libraries, order, i, earlier, known, library);
        libraries := libraries[order[i] := library];
        i := i + 1;
      }
      Conclude(before, profiles, was, libraries, order, known);
      return Migrated, known;
    }
  }
}
