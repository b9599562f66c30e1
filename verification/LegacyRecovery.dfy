/**
 Recovery of legacy artifact writes that provably never touched external storage: a loop that
 settles proven candidates in batches until none is left.
 */
module LegacyRecovery {
  import opened Common

  const BATCH: nat := 250

  datatype WriteState = Admitted | Entered | Quiescent | SettledState

  /** A row of catalog_physical_writes. */
  datatype PhysicalWrite = PhysicalWrite(
    libraryId: int, artifactOwner: bool, ownerId: string, jobId: string, state: WriteState, settledAt: Option<int>,
    runtimeId: string, receiptVersion: int)

  datatype RunStatus = RunFailed | Superseded | OtherStatus

  datatype Run = Run(
    libraryId: int, jobId: Option<string>, status: RunStatus, finished: bool, cleanupSkipped: bool,
    cleanupError: string, written: int, updated: int, removed: int)

  /** `payload` lists the members of the payload object; None stands for text that is not valid JSON. */
  datatype Job = Job(
    isArtifactJob: bool, terminal: bool, finished: bool, leaseToken: string, leased: bool, interrupt: string,
    payload: Option<seq<(string, string)>>)

  datatype Artifact = Artifact(runId: string, queued: bool, fingerprint: string)

  datatype Claim = Claim(ownerRunId: Option<string>, physicalWriteId: Option<int>)

  datatype Db = Db(
    writes: map<int, PhysicalWrite>, runs: map<string, Run>, jobs: map<string, Job>, receipts: set<string>,
    claims: map<int, Claim>, artifacts: map<int, Artifact>)

  // ---- The candidate query ------------------------------------------------------------------

  predicate JobProves(job: Job, runId: string) {
    && job.isArtifactJob && job.terminal && job.finished && job.leaseToken == "" && !job.leased && job.interrupt == ""
    && job.payload == Some([("artifact_run_id", runId)])
  }

  predicate RunProves(run: Run) {
    && (run.status.RunFailed? || run.status.Superseded?) && run.finished && run.cleanupSkipped && run.cleanupError == ""
    && run.written == 0 && run.updated == 0 && run.removed == 0
  }

  predicate Unclaimed(db: Db, id: int, runId: string) {
    forall artifact :: artifact in db.claims ==>
      && db.claims[artifact].ownerRunId != Some(runId)
      && db.claims[artifact].physicalWriteId != Some(id)
      && !(artifact in db.artifacts && db.artifacts[artifact].runId == runId)
  }

  /** Every manifest row of the run is a queued placeholder without a fingerprint. */
  predicate OnlyPlaceholders(db: Db, runId: string) {
    forall a :: a in db.artifacts && db.artifacts[a].runId == runId ==>
      db.artifacts[a].queued && db.artifacts[a].fingerprint == ""
  }

  /** legacyArtifactNoIOCandidateSQL */
  predicate Candidate(db: Db, id: int) {
    && id in db.writes
    && var w := db.writes[id];
       && w.ownerId in db.runs && w.jobId in db.jobs
       && var run := db.runs[w.ownerId];
          && run.libraryId == w.libraryId && run.jobId == Some(w.jobId)
          && w.artifactOwner && w.state.Quiescent? && w.settledAt.None? && w.runtimeId != "" && w.receiptVersion == 0
          && JobProves(db.jobs[w.jobId], w.ownerId) && RunProves(run)
          && w.ownerId !in db.receipts && Unclaimed(db, id, w.ownerId) && OnlyPlaceholders(db, w.ownerId)
  }

  function Candidates(db: Db): set<int> { set id | id in db.writes && Candidate(db, id) }

  // ---- Settling one candidate ---------------------------------------------------------------

  predicate Placeholder(a: Artifact, runId: string) { a.runId == runId && a.queued && a.fingerprint == "" }

  /** Delete the run's placeholders; claims on deleted artifacts go with them. */
  function DropPlaceholders(db: Db, runId: string): Db {
    var gone := set a | a in db.artifacts && Placeholder(db.artifacts[a], runId);
    db.(artifacts := db.artifacts - gone, claims := db.claims - gone)
  }

  function Settle(w: PhysicalWrite, now: int): PhysicalWrite { w.(state := SettledState, settledAt := Some(now)) }

  predicate Settleable(db: Db, id: int) {
    && id in db.writes && db.writes[id].artifactOwner && db.writes[id].state.Quiescent?
    && db.writes[id].receiptVersion == 0
    && forall a :: a in db.artifacts ==> db.artifacts[a].runId != db.writes[id].ownerId
  }

  datatype Reconciled = Reconciled(db: Db, settled: bool)

  /** ReconcileLegacyArtifactNoIOPhysicalWriteTx */
  function Reconcile(db: Db, id: int, now: int): Reconciled {
    if id == 0 || !Candidate(db, id) || db.writes[id].ownerId == "" then Reconciled(db, false)
    else
      var cleared := DropPlaceholders(db, db.writes[id].ownerId);
      if Settleable(cleared, id) then
        Reconciled(cleared.(writes := cleared.writes[id := Settle(cleared.writes[id], now)]), true)
      else Reconciled(cleared, false)
  }

  /** The reconciler turns a proven candidate down: its own identity or that of its run is the empty value. */
  predicate Refused(db: Db, id: int) { Candidate(db, id) && (id == 0 || db.writes[id].ownerId == "") }

  /** A proven candidate is settled exactly when neither identity is the empty value. */
  lemma SettledIff(db: Db, id: int, now: int)
    requires Candidate(db, id)
    ensures Reconcile(db, id, now).settled <==> !Refused(db, id)
  {
  }

  /**
   A write is settled exactly when it is a quiescent artifact write of its own run, which failed or was superseded,
   ended without touching a file and without cleanup, was driven by an ended and released artifact job with nothing
   but the run in its payload, published no receipt, and neither claims nor indexed any artifact.
   */
  lemma ReconcileIff(db: Db, id: int, now: int)
    ensures Reconcile(db, id, now).settled <==>
            && id != 0 && id in db.writes
            && (var w := db.writes[id];
                && w.ownerId != "" && w.ownerId in db.runs && w.jobId in db.jobs && w.ownerId !in db.receipts
                && w.artifactOwner && w.state == Quiescent && w.settledAt == None && w.runtimeId != ""
                && w.receiptVersion == 0
                && (var run := db.runs[w.ownerId];
                    && run.libraryId == w.libraryId && run.jobId == Some(w.jobId) && run.status != OtherStatus
                    && run.finished && run.cleanupSkipped && run.cleanupError == ""
                    && run.written == 0 && run.updated == 0 && run.removed == 0)
                && (var job := db.jobs[w.jobId];
                    && job.isArtifactJob && job.terminal && job.finished && job.leaseToken == "" && !job.leased
                    && job.interrupt == "" && job.payload == Some([("artifact_run_id", w.ownerId)]))
                && (forall a :: a in db.claims ==>
                      && db.claims[a].ownerRunId != Some(w.ownerId) && db.claims[a].physicalWriteId != Some(id)
                      && (a in db.artifacts ==> db.artifacts[a].runId != w.ownerId))
                && (forall a :: a in db.artifacts && db.artifacts[a].runId == w.ownerId ==>
                      db.artifacts[a].queued && db.artifacts[a].fingerprint == ""))
  {
    if Candidate(db, id) { SettledIff(db, id, now); }
  }

  /** The schema admits a run whose identity is the empty text, so the refusing branch can be reached. */
  lemma RefusalReachable(library: int)
    ensures var w := PhysicalWrite(library, true, "", "job", Quiescent, None, "runtime", 0);
            var run := Run(library, Some("job"), RunFailed, true, true, "", 0, 0, 0);
            var job := Job(true, true, true, "", false, "", Some([("artifact_run_id", "")]));
            Refused(Db(map[1 := w], map["" := run], map["job" := job], {}, map[], map[]), 1)
  {
  }

  /** Nothing else changes: only the placeholders of the run go, and only the one write is settled. */
  lemma ReconcileFrame(db: Db, id: int, now: int)
    requires Candidate(db, id) && !Refused(db, id)
    ensures var after := Reconcile(db, id, now).db;
            && after == db.(writes := db.writes[id := Settle(db.writes[id], now)], artifacts := after.artifacts)
            && (forall a :: a in after.artifacts ==> a in db.artifacts && after.artifacts[a] == db.artifacts[a])
            && (forall a :: a in db.artifacts ==>
                  (a !in after.artifacts <==> Placeholder(db.artifacts[a], db.writes[id].ownerId)))
  {
    var gone := set a | a in db.artifacts && Placeholder(db.artifacts[a], db.writes[id].ownerId);
    assert forall a :: a in db.claims ==> a !in gone;
    assert db.claims - gone == db.claims;
  }

  /** Settling one candidate neither invalidates nor creates another. */
  lemma OthersUntouched(db: Db, id: int, now: int, other: int)
    requires Candidate(db, id) && !Refused(db, id) && other != id
    ensures Candidate(Reconcile(db, id, now).db, other) <==> Candidate(db, other)
  {
    ReconcileFrame(db, id, now);
    var after := Reconcile(db, id, now).db;
    if other in db.writes {
      var run := db.writes[other].ownerId;
      assert OnlyPlaceholders(after, run) <==> OnlyPlaceholders(db, run);
      assert Unclaimed(after, other, run) <==> Unclaimed(db, other, run);
    }
  }

  lemma CandidatesShrink(db: Db, id: int, now: int)
    requires Candidate(db, id) && !Refused(db, id)
    ensures Candidates(Reconcile(db, id, now).db) == Candidates(db) - {id}
  {
    ReconcileFrame(db, id, now);
    var after := Reconcile(db, id, now).db;
    assert !Candidate(after, id);
    forall other ensures other in Candidates(after) <==> other in Candidates(db) - {id} {
      if other != id { OthersUntouched(db, id, now, other); }
    }
  }

  // ---- The whole recovery -------------------------------------------------------------------

  predicate Dropped(before: Db, done: set<int>, a: int)
    requires a in before.artifacts && done <= before.writes.Keys
  {
    exists id :: id in done && Placeholder(before.artifacts[a], before.writes[id].ownerId)
  }

  predicate SettledFrom(was: PhysicalWrite, now: PhysicalWrite) {
    now.state.SettledState? && now.settledAt.Some? && now == Settle(was, now.settledAt.value)
  }

  /** Exactly the writes in `done` have been settled and exactly their runs' placeholders are gone. */
  ghost predicate Progress(before: Db, now: Db, done: set<int>) {
    && done <= before.writes.Keys
    && now == before.(writes := now.writes, artifacts := now.artifacts)
    && now.writes.Keys == before.writes.Keys
    && (forall id :: id in before.writes ==>
          if id in done then SettledFrom(before.writes[id], now.writes[id]) else now.writes[id] == before.writes[id])
    && (forall a :: a in now.artifacts ==> a in before.artifacts && now.artifacts[a] == before.artifacts[a])
    && (forall a :: a in before.artifacts ==> (a !in now.artifacts <==> Dropped(before, done, a)))
  }

  lemma ProgressNext(before: Db, now: Db, done: set<int>, id: int, at: int)
    requires Progress(before, now, done) && id !in done && Candidate(now, id) && !Refused(now, id)
    ensures Progress(before, Reconcile(now, id, at).db, done + {id})
  {
    ReconcileFrame(now, id, at);
    var after := Reconcile(now, id, at).db;
    assert now.writes[id] == before.writes[id];
    forall a | a in before.artifacts ensures a !in after.artifacts <==> Dropped(before, done + {id}, a) {
      if Dropped(before, done, a) {
        var k :| k in done && Placeholder(before.artifacts[a], before.writes[k].ownerId);
        assert k in done + {id};
      }
      if Dropped(before, done + {id}, a) && !Dropped(before, done, a) {
        var k :| k in done + {id} && Placeholder(before.artifacts[a], before.writes[k].ownerId);
        assert k == id;
      }
      if a in now.artifacts && a !in after.artifacts { assert id in done + {id}; }
    }
  }

  lemma RefusedStays(before: Db, now: Db, done: set<int>, id: int)
    requires Progress(before, now, done) && Candidate(before, id) && Candidate(now, id)
    ensures Refused(now, id) <==> Refused(before, id)
  {
  }

  /** Exactly the writes in `settled` have been settled since `before`, and only they have left the candidates. */
  ghost predicate Account(before: Db, now: Db, settled: set<int>) {
    Progress(before, now, settled) && Candidates(now) == Candidates(before) - settled
  }

  /** The batch from position i on still consists of candidates. */
  ghost predicate Waiting(db: Db, ids: seq<int>, i: nat) { forall k :: i <= k < |ids| ==> Candidate(db, ids[k]) }

  /** One turn of the batch loop. */
  lemma BatchNext(before: Db, now: Db, settled: set<int>, ids: seq<int>, i: nat, at: int)
    requires (forall j, k :: 0 <= j < k < |ids| ==> ids[j] != ids[k]) && i < |ids|
    requires Account(before, now, settled) && Waiting(now, ids, i)
    ensures Reconcile(now, ids[i], at).settled <==> !Refused(before, ids[i])
    ensures Reconcile(now, ids[i], at).settled ==>
              var after := Reconcile(now, ids[i], at).db;
              Account(before, after, settled + {ids[i]}) && Waiting(after, ids, i + 1)
  {
    var id := ids[i];
    assert Candidate(now, id) && id in Candidates(now);
    RefusedStays(before, now, settled, id);
    SettledIff(now, id, at);
    if !Refused(now, id) {
      ProgressNext(before, now, settled, id, at);
      CandidatesShrink(now, id, at);
      WaitingNext(now, ids, i, at);
    }
  }

  lemma WaitingNext(db: Db, ids: seq<int>, i: nat, at: int)
    requires (forall j, k :: 0 <= j < k < |ids| ==> ids[j] != ids[k]) && i < |ids|
    requires Waiting(db, ids, i) && !Refused(db, ids[i])
    ensures Waiting(Reconcile(db, ids[i], at).db, ids, i + 1)
  {
    forall k | i + 1 <= k < |ids| ensures Candidate(Reconcile(db, ids[i], at).db, ids[k]) {
      OthersUntouched(db, ids[i], at, ids[k]);
    }
  }

  datatype Result = Recovered | NotSettled(id: int)

  datatype Settling = Settling(db: Db, result: Result)

  /** The inner loop over a batch from position i on. */
  function SettleFrom(db: Db, ids: seq<int>, i: nat, now: int): Settling
    requires i <= |ids|
    decreases |ids| - i
  {
    if i == |ids| then Settling(db, Recovered)
    else
      var r := Reconcile(db, ids[i], now);
      if !r.settled then Settling(r.db, NotSettled(ids[i])) else SettleFrom(r.db, ids, i + 1, now)
  }

  /** The identities of a batch from position i on. */
  ghost function Later(ids: seq<int>, i: nat): set<int>
    requires i <= |ids|
    decreases |ids| - i
  {
    if i == |ids| then {} else {ids[i]} + Later(ids, i + 1)
  }

  lemma {:induction false} LaterMembers(ids: seq<int>, i: nat)
    requires i <= |ids|
    ensures forall id :: id in Later(ids, i) <==> exists k :: i <= k < |ids| && ids[k] == id
    decreases |ids| - i
  {
    if i == |ids| {
    } else {
      LaterMembers(ids, i + 1);
    }
  }

  lemma NothingLeft(before: Db, now: Db, settled: set<int>)
    requires Account(before, now, settled) && settled <= Candidates(before) && forall id :: id !in Candidates(now)
    ensures Candidates(now) == {} && settled == Candidates(before)
  {
    assert Candidates(before) - settled == {};
    assert forall id :: id in Candidates(before) ==> id in Candidates(before) - settled || id in settled;
  }

  lemma BatchOfCandidates(db: Db, ids: seq<int>)
    requires ids != [] && forall i :: 0 <= i < |ids| ==> Candidate(db, ids[i])
    ensures Later(ids, 0) <= Candidates(db) && ids[0] in Later(ids, 0)
  {
    LaterMembers(ids, 0);
    forall id | id in Later(ids, 0) ensures id in Candidates(db) {
      var k :| 0 <= k < |ids| && ids[k] == id;
      assert Candidate(db, ids[k]);
    }
  }

  /** A batch of candidates is settled whole, or up to one that is refused. */
  lemma {:induction false} SettleFromMeaning(before: Db, now: Db, settled: set<int>, ids: seq<int>, i: nat, at: int)
    requires (forall j, k :: 0 <= j < k < |ids| ==> ids[j] != ids[k]) && i <= |ids|
    requires Account(before, now, settled) && Waiting(now, ids, i)
    ensures var s := SettleFrom(now, ids, i, at);
            && (s.result.Recovered? ==>
                  && Account(before, s.db, settled + Later(ids, i))
                  && forall id :: id in Later(ids, i) ==> !Refused(before, id))
            && (s.result.NotSettled? ==> s.result.id in Later(ids, i) && Refused(before, s.result.id))
    decreases |ids| - i
  {
    if i == |ids| {
      assert settled + {} == settled;
    } else {
      BatchNext(before, now, settled, ids, i, at);
      var r := Reconcile(now, ids[i], at);
      if r.settled {
        SettleFromMeaning(before, r.db, settled + {ids[i]}, ids, i + 1, at);
        assert settled + {ids[i]} + Later(ids, i + 1) == settled + Later(ids, i);
      }
    }
  }

  /** Those of the first n identities of the index that qualify. */
  function Picked(qualifies: int -> bool, index: seq<int>, n: nat): seq<int>
    requires n <= |index|
  {
    if n == 0 then []
    else
      var ids, last := Picked(qualifies, index, n - 1), index[n - 1];
      if qualifies(last) then ids + [last] else ids
  }

  ghost predicate Increasing(ids: seq<int>) { forall i, j :: 0 <= i < j < |ids| ==> ids[i] < ids[j] }

  ghost predicate Picks(qualifies: int -> bool, index: seq<int>, n: nat, ids: seq<int>)
    requires n <= |index|
  {
    && Increasing(ids)
    && (forall i :: 0 <= i < |ids| ==> qualifies(ids[i]))
    && (forall i, k :: 0 <= i < |ids| && n <= k < |index| ==> ids[i] < index[k])
    && (forall k :: 0 <= k < n && qualifies(index[k]) ==> index[k] in ids)
  }

  lemma PicksNext(qualifies: int -> bool, index: seq<int>, n: nat, ids: seq<int>)
    requires n < |index| && Picks(qualifies, index, n, ids) && Increasing(index)
    ensures Picks(qualifies, index, n + 1, if qualifies(index[n]) then ids + [index[n]] else ids)
  {
  }

  lemma {:induction false} PickedMeaning(qualifies: int -> bool, index: seq<int>, n: nat) returns (ids: seq<int>)
    requires n <= |index| && Increasing(index)
    ensures ids == Picked(qualifies, index, n) && Picks(qualifies, index, n, ids)
  {
    if n == 0 {
      ids := [];
    } else {
      var before := PickedMeaning(qualifies, index, n - 1);
      PicksNext(qualifies, index, n - 1, before);
      ids := if qualifies(index[n - 1]) then before + [index[n - 1]] else before;
    }
  }

  function CandidateOf(db: Db): int -> bool { id => Candidate(db, id) }

  /** A batch picked up to position n, either full or to the end, is the first of the candidates. */
  lemma BatchIsFirst(db: Db, index: seq<int>, n: nat, ids: seq<int>)
    requires n <= |index| && Increasing(index) && ids == Picked(CandidateOf(db), index, n)
    requires |ids| == BATCH || n == |index|
    requires forall id :: id in db.writes ==> id in index
    ensures Increasing(ids) && forall i :: 0 <= i < |ids| ==> Candidate(db, ids[i])
    ensures forall id :: id in Candidates(db) && id !in ids ==>
              |ids| == BATCH && forall i :: 0 <= i < |ids| ==> ids[i] < id
  {
    var picked := PickedMeaning(CandidateOf(db), index, n);
    forall id | id in Candidates(db) && id !in ids
      ensures |ids| == BATCH && forall i :: 0 <= i < |ids| ==> ids[i] < id
    {
      assert id in index && CandidateOf(db)(id);
      var k :| 0 <= k < |index| && index[k] == id;
    }
  }

  /** The database of the migration transaction. */
  class Tx {
    var db: Db
    /** The primary keys of the physical writes in increasing order. */
    const index: seq<int>

    ghost predicate Indexed()
      reads this
    {
      && (forall i, j :: 0 <= i < j < |index| ==> index[i] < index[j])
      && forall id :: id in db.writes <==> id in index
    }

    constructor (db: Db, index: seq<int>)
      requires forall i, j :: 0 <= i < j < |index| ==> index[i] < index[j]
      requires forall id :: id in db.writes <==> id in index
      ensures this.db == db && Indexed()
    {
      this.db, this.index := db, index;
    }

    /** The candidate query: the first candidates by identity, at most a batch of them. */
    method SelectBatch() returns (ids: seq<int>)
      requires Indexed()
      ensures |ids| <= BATCH && (forall i, j :: 0 <= i < j < |ids| ==> ids[i] < ids[j])
      ensures forall i :: 0 <= i < |ids| ==> Candidate(db, ids[i])
      ensures forall id :: id in Candidates(db) && id !in ids ==>
                |ids| == BATCH && forall i :: 0 <= i < |ids| ==> ids[i] < id
    {
      ids := [];
      var i := 0;
      while i < |index| && |ids| < BATCH
        invariant 0 <= i <= |index| && |ids| <= BATCH && ids == Picked(CandidateOf(db), index, i)
      {
        if Candidate(db, index[i]) { ids := ids + [index[i]]; }
        i := i + 1;
      }
      BatchIsFirst(db, index, i, ids);
    }

    method ReconcileWrite(id: int, now: int) returns (settled: bool)
      modifies this`db
      ensures db == Reconcile(old(db), id, now).db && settled == Reconcile(old(db), id, now).settled
    {
      if id == 0 || !Candidate(db, id) || db.writes[id].ownerId == "" { return false; }
      var runId := db.writes[id].ownerId;
      var gone := set a | a in db.artifacts && Placeholder(db.artifacts[a], runId);
      db := db.(artifacts := db.artifacts - gone, claims := db.claims - gone);
      settled := Settleable(db, id);
      if settled { db := db.(writes := db.writes[id := Settle(db.writes[id], now)]); }
    }

    /** The inner loop over one batch of proven candidates. */
    method SettleBatch(ids: seq<int>, now: int) returns (result: Result)
      modifies this
      ensures Settling(db, result) == SettleFrom(old(db), ids, 0, now)
    {
      var i := 0;
      while i < |ids|
        invariant 0 <= i <= |ids| && SettleFrom(db, ids, i, now) == SettleFrom(old(db), ids, 0, now)
      {
        var ok := ReconcileWrite(ids[i], now);
        if !ok { return NotSettled(ids[i]); }
        i := i + 1;
      }
      return Recovered;
    }

    /**
     migrateLegacyArtifactNoIORecovery. It ends; it succeeds exactly when no proven candidate has an empty identity;
     and then every candidate is settled, none is left, and nothing else has changed.
     */
    method Recover(now: int) returns (result: Result)
      requires Indexed()
      modifies this
      ensures result.Recovered? <==> forall id :: id in Candidates(old(db)) ==> !Refused(old(db), id)
      ensures result.Recovered? ==> Candidates(db) == {} && Progress(old(db), db, Candidates(old(db)))
      ensures result.NotSettled? ==> result.id in Candidates(old(db)) && Refused(old(db), result.id)
    {
      ghost var before, done := db, {};
      while true
        invariant Account(before, db, done)
        invariant done <= Candidates(before) && forall id :: id in done ==> !Refused(before, id)
        decreases Candidates(before) - done
      {
        assert Indexed();
        var ids := SelectBatch();
        if ids == [] {
          assert forall id :: id !in Candidates(db);
          NothingLeft(before, db, done);
          break;
        }
        BatchOfCandidates(db, ids);
        SettleFromMeaning(before, db, done, ids, 0, now);
        result := SettleBatch(ids, now);
        if result.NotSettled? { return; }
        done := done + Later(ids, 0);
      }
      return Recovered;
    }
  }
}
