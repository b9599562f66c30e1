/** The two updates that give each cloud connection at most one default ingest library. */
module DefaultIngest {
  import opened Common

  datatype Mode = Move | Copy | OtherMode

  datatype Library = Library(
    storageId: int, enabled: bool, ingestEnabled: bool, mode: Mode, sortOrder: int, default: Option<int>)

  datatype Storage = Storage(enabled: bool, pan115: bool, connection: Option<int>)

  datatype Downloader = Downloader(storageId: int, enabled: bool, autoListen: bool, pan115Offline: bool)

  datatype Db = Db(libraries: map<int, Library>, storages: map<int, Storage>, downloaders: set<Downloader>)

  /** The connection behind a library's storage, when the storage is an enabled pan115 one. */
  function Source(db: Db, id: int): Option<int>
    requires id in db.libraries
  {
    var storageId := db.libraries[id].storageId;
    if storageId in db.storages && db.storages[storageId].enabled && db.storages[storageId].pan115
    then db.storages[storageId].connection else None
  }

  /** Whether the pass looks at intake choices (first) or at transfer modes (second). */
  datatype Pass = Explicit | Fallback

  /** The library can receive the connection's intake under the rule of the pass. */
  predicate Eligible(db: Db, pass: Pass, id: int, connection: int) {
    && id in db.libraries && Source(db, id) == Some(connection) && db.libraries[id].enabled
    && match pass
       case Explicit => db.libraries[id].ingestEnabled
       case Fallback => db.libraries[id].mode.Move? || db.libraries[id].mode.Copy?
  }

  predicate Earlier(db: Db, a: int, b: int)
    requires a in db.libraries && b in db.libraries
  {
    || db.libraries[a].sortOrder < db.libraries[b].sortOrder
    || (db.libraries[a].sortOrder == db.libraries[b].sortOrder && a < b)
  }

  /** The NOT EXISTS (earlier) clause: no eligible library of the connection sorts before this one. */
  predicate Least(db: Db, pass: Pass, id: int, connection: int) {
    && Eligible(db, pass, id, connection)
    && forall other :: other in db.libraries && Eligible(db, pass, other, connection) ==> !Earlier(db, other, id)
  }

  /** An enabled offline downloader of the connection listens to life events. */
  predicate Listens(db: Db, connection: int) {
    exists d :: d in db.downloaders && d.enabled && d.autoListen && d.pan115Offline
                && d.storageId in db.storages && db.storages[d.storageId].connection == Some(connection)
  }

  predicate Chosen(db: Db, connection: int) {
    exists id :: id in db.libraries && db.libraries[id].default == Some(connection)
  }

  /** The rows the update statement of the pass selects. */
  predicate Selected(db: Db, pass: Pass, id: int)
    requires id in db.libraries
  {
    Source(db, id).Some? &&
    var connection := Source(db, id).value;
    Least(db, pass, id, connection) && (pass.Fallback? ==> Listens(db, connection) && !Chosen(db, connection))
  }

  /** One UPDATE: every selected library takes the connection of its storage as default. */
  function Update(db: Db, pass: Pass): Db {
    db.(libraries := map id | id in db.libraries ::
          if Selected(db, pass, id) then db.libraries[id].(default := Source(db, id)) else db.libraries[id])
  }

  function Migrated(db: Db): Db { Update(Update(db, Explicit), Fallback) }

  /** The default column was added by this migration, so every row starts without one. */
  ghost predicate NoDefaults(db: Db) {
    forall id :: id in db.libraries ==> db.libraries[id].default == None
  }

  // ---- Updates change the default column only -----------------------------------------------

  lemma UpdateKeeps(db: Db, pass: Pass)
    ensures Update(db, pass).libraries.Keys == db.libraries.Keys
    ensures forall id :: id in db.libraries ==>
              Update(db, pass).libraries[id] == db.libraries[id].(default := Update(db, pass).libraries[id].default)
    ensures forall p, id, c :: Eligible(Update(db, pass), p, id, c) <==> Eligible(db, p, id, c)
    ensures forall c :: Listens(Update(db, pass), c) <==> Listens(db, c)
  {
    var after := Update(db, pass);
    forall p, id, c ensures Eligible(after, p, id, c) <==> Eligible(db, p, id, c) {
      if id in db.libraries { assert Source(after, id) == Source(db, id); }
    }
  }

  lemma UpdateKeepsLeast(db: Db, pass: Pass, p: Pass, id: int, c: int)
    ensures Least(Update(db, pass), p, id, c) <==> Least(db, p, id, c)
  {
    UpdateKeeps(db, pass);
    var after := Update(db, pass);
    assert forall a, b :: a in db.libraries && b in db.libraries ==> (Earlier(after, a, b) <==> Earlier(db, a, b));
  }

  lemma LeastUnique(db: Db, pass: Pass, a: int, b: int, connection: int)
    requires Least(db, pass, a, connection) && Least(db, pass, b, connection)
    ensures a == b
  {
  }

  // ---- A least eligible library exists ------------------------------------------------------

  /** Starting from any candidate, step to an earlier one until there is none. */
  lemma {:induction false} LeastOf(db: Db, ids: set<int>, candidate: int) returns (first: int)
    requires candidate in ids && ids <= db.libraries.Keys
    ensures first in ids && forall id :: id in ids ==> !Earlier(db, id, first)
    decreases ids
  {
    if other :| other in ids && Earlier(db, other, candidate) {
      var before := set id | id in ids && Earlier(db, id, candidate);
      assert candidate in ids && candidate !in before;
      first := LeastOf(db, before, other);
    } else {
      first := candidate;
    }
  }

  lemma LeastExists(db: Db, pass: Pass, connection: int, someone: int) returns (first: int)
    requires Eligible(db, pass, someone, connection)
    ensures Least(db, pass, first, connection)
  {
    var ids := set id | id in db.libraries && Eligible(db, pass, id, connection);
    assert someone in ids;
    first := LeastOf(db, ids, someone);
  }

  // ---- What the two passes achieve ----------------------------------------------------------

  /** The library that should be the connection's default: the explicit winner, else the fallback winner. */
  ghost predicate Winner(db: Db, id: int, connection: int) {
    || Least(db, Explicit, id, connection)
    || (&& (forall other :: !Least(db, Explicit, other, connection))
        && Least(db, Fallback, id, connection) && Listens(db, connection))
  }

  lemma AfterExplicit(db: Db, id: int, connection: int)
    requires NoDefaults(db) && id in db.libraries
    ensures Update(db, Explicit).libraries[id].default == Some(connection) <==> Least(db, Explicit, id, connection)
  {
    if Source(db, id).Some? && Source(db, id).value != connection { assert !Eligible(db, Explicit, id, connection); }
  }

  lemma ChosenAfterExplicit(db: Db, connection: int)
    requires NoDefaults(db)
    ensures Chosen(Update(db, Explicit), connection) <==> exists id :: Least(db, Explicit, id, connection)
  {
    var mid := Update(db, Explicit);
    if Chosen(mid, connection) {
      var id :| id in mid.libraries && mid.libraries[id].default == Some(connection);
      AfterExplicit(db, id, connection);
    }
    if id :| Least(db, Explicit, id, connection) {
      AfterExplicit(db, id, connection);
      assert mid.libraries[id].default == Some(connection);
    }
  }

  lemma SelectedInFallback(db: Db, id: int, connection: int)
    requires NoDefaults(db) && id in db.libraries
    ensures var mid := Update(db, Explicit);
            Selected(mid, Fallback, id) && Source(mid, id) == Some(connection) <==>
            && Least(db, Fallback, id, connection) && Listens(db, connection)
            && !exists o :: Least(db, Explicit, o, connection)
  {
    UpdateKeeps(db, Explicit);
    UpdateKeepsLeast(db, Explicit, Fallback, id, connection);
    ChosenAfterExplicit(db, connection);
    assert Source(Update(db, Explicit), id) == Source(db, id);
  }

  /**
   The rules on the columns: an enabled library on an enabled pan115 storage of the connection that takes in on its own
   choice, or moves or copies; libraries in the order of their sort column and identity; an enabled offline downloader
   on a storage of the connection that listens.
   */
  lemma RulesMeaning(db: Db, id: int, other: int, connection: int)
    requires id in db.libraries && other in db.libraries
    ensures var l := db.libraries[id];
            var reachable := l.enabled && l.storageId in db.storages
                             && db.storages[l.storageId] == Storage(true, true, Some(connection));
            && (Eligible(db, Explicit, id, connection) <==> reachable && l.ingestEnabled)
            && (Eligible(db, Fallback, id, connection) <==> reachable && l.mode != OtherMode)
    ensures var a, b := db.libraries[id].sortOrder, db.libraries[other].sortOrder;
            Earlier(db, id, other) <==> a < b || (a == b && id < other)
    ensures Listens(db, connection) <==>
            exists d :: d in db.downloaders && d == Downloader(d.storageId, true, true, true)
                        && d.storageId in db.storages && db.storages[d.storageId].connection == Some(connection)
  {
    if Listens(db, connection) {
      var d :| && d in db.downloaders && d.enabled && d.autoListen && d.pan115Offline
               && d.storageId in db.storages && db.storages[d.storageId].connection == Some(connection);
      assert d == Downloader(d.storageId, true, true, true);
    }
  }

  /** After both updates a library is the default of a connection exactly when it is the connection's winner. */
  lemma DefaultIsWinner(db: Db, id: int, connection: int)
    requires NoDefaults(db) && id in db.libraries
    ensures Migrated(db).libraries.Keys == db.libraries.Keys
    ensures Migrated(db).libraries[id].default == Some(connection) <==> Winner(db, id, connection)
  {
    var mid := Update(db, Explicit);
    UpdateKeeps(db, Explicit);
    UpdateKeeps(mid, Fallback);
    AfterExplicit(db, id, connection);
    SelectedInFallback(db, id, connection);
    if Selected(mid, Fallback, id) {
      SelectedElsewhere(db, id, connection);
    }
  }

  /** A library selected by the second pass had no default from the first. */
  lemma SelectedElsewhere(db: Db, id: int, connection: int)
    requires NoDefaults(db) && id in db.libraries && Selected(Update(db, Explicit), Fallback, id)
    ensures !Least(db, Explicit, id, connection)
  {
    var mid := Update(db, Explicit);
    UpdateKeeps(db, Explicit);
    var own := Source(mid, id).value;
    assert Source(db, id) == Source(mid, id);
    SelectedInFallback(db, id, own);
    assert Least(db, Explicit, id, connection) ==> own == connection;
  }

  /** Each connection is the default of at most one library. */
  lemma DefaultsUnique(db: Db, a: int, b: int, connection: int)
    requires NoDefaults(db) && a in db.libraries && b in db.libraries
    requires Migrated(db).libraries.Keys == db.libraries.Keys
    requires Migrated(db).libraries[a].default == Some(connection)
    requires Migrated(db).libraries[b].default == Some(connection)
    ensures a == b
  {
    DefaultIsWinner(db, a, connection);
    DefaultIsWinner(db, b, connection);
    var pass := if Least(db, Explicit, a, connection) then Explicit else Fallback;
    LeastUnique(db, pass, a, b, connection);
  }

  /** A connection with an eligible library under either rule ends with a default. */
  lemma DefaultExists(db: Db, pass: Pass, someone: int, connection: int) returns (id: int)
    requires NoDefaults(db) && Eligible(db, pass, someone, connection)
    requires pass.Fallback? ==> Listens(db, connection)
    ensures id in db.libraries && Migrated(db).libraries.Keys == db.libraries.Keys
    ensures Migrated(db).libraries[id].default == Some(connection)
  {
    if other :| Least(db, Explicit, other, connection) {
      id := other;
    } else {
      if pass.Explicit? {
        id := LeastExists(db, Explicit, connection, someone);
      } else {
        id := LeastExists(db, Fallback, connection, someone);
      }
    }
    DefaultIsWinner(db, id, connection);
  }

  /** The fallback pass leaves every explicit winner in place. */
  lemma ExplicitNeverDisplaced(db: Db, id: int)
    requires NoDefaults(db) && id in db.libraries && Update(db, Explicit).libraries[id].default.Some?
    ensures Migrated(db).libraries[id] == Update(db, Explicit).libraries[id]
  {
    var c := Update(db, Explicit).libraries[id].default.value;
    AfterExplicit(db, id, c);
    UpdateKeeps(db, Explicit);
    if Selected(Update(db, Explicit), Fallback, id) { SelectedElsewhere(db, id, c); }
  }
}
