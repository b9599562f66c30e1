/**
 The versioned migration runner as a state machine over statements, crashes and restarts of one process. Six migrations
 run with foreign keys switched off, and the whole database is checked after each of them has been committed.
 */
module MigrationRunner {

  /** `leaves` says whether foreign-key violations stand after the migration, given whether they stood before it. */
  datatype Migration = Migration(version: int, disablesForeignKeys: bool, leaves: bool -> bool)

  /** Versions 1 to 127, six of which run with foreign keys switched off. */
  function SourceMigrations(leaves: int -> bool -> bool): (all: seq<Migration>)
    ensures |all| == 127 && forall i :: 0 <= i < 127 ==> all[i].version == i + 1
  {
    seq(127, i => Migration(i + 1, i + 1 in {18, 20, 35, 44, 97, 119}, leaves(i + 1)))
  }

  datatype Phase =
    | Down
    | Scanning(next: nat)
    | InTransaction(next: nat, applied: bool)
    | Checking(next: nat)
    | Failed
    | Finished

  /**
   `committed` is the history of committed transactions: the effects of a migration and its schema_migrations row
   commit together. `violating` says whether the database holds foreign-key violations. `passed` and `abandoned` record
   how the check after a commit ended.
   */
  datatype State = State(committed: seq<int>, violating: bool, phase: Phase, passed: set<int>, abandoned: set<int>)

  const FRESH := State([], false, Down, {}, {})

  datatype Step =
    | StartProcess | Skip | Begin | ApplySucceeds | ApplyFails | Commit | CheckPasses | CheckFails | CheckErrs | Finish
    | Crash | Exit

  /** A check passes on a database without violations and fails on one with; it may also end in an error. */
  predicate Enabled(all: seq<Migration>, s: State, step: Step) {
    match step
    case StartProcess => s.phase.Down?
    case Skip => s.phase.Scanning? && s.phase.next < |all| && all[s.phase.next].version in s.committed
    case Begin => s.phase.Scanning? && s.phase.next < |all| && all[s.phase.next].version !in s.committed
    case ApplySucceeds => s.phase.InTransaction? && s.phase.next < |all| && !s.phase.applied
    case ApplyFails => s.phase.InTransaction? && !s.phase.applied
    case Commit => s.phase.InTransaction? && s.phase.next < |all| && s.phase.applied
    case CheckPasses => s.phase.Checking? && s.phase.next < |all| && !s.violating
    case CheckFails => s.phase.Checking? && s.phase.next < |all| && s.violating
    case CheckErrs => s.phase.Checking? && s.phase.next < |all|
    case Finish => s.phase.Scanning? && s.phase.next == |all|
    case Crash => !s.phase.Down? && (s.phase.Checking? ==> s.phase.next < |all|)
    case Exit => s.phase.Failed? || s.phase.Finished?
  }

  function Apply(all: seq<Migration>, s: State, step: Step): State
    requires Enabled(all, s, step)
  {
    match step
    case StartProcess => s.(phase := Scanning(0))
    case Skip => s.(phase := Scanning(s.phase.next + 1))
    case Begin => s.(phase := InTransaction(s.phase.next, false))
    case ApplySucceeds => s.(phase := InTransaction(s.phase.next, true))
    case ApplyFails => s.(phase := Failed)
    case Commit =>
      var m := all[s.phase.next];
      s.(committed := s.committed + [m.version], violating := m.leaves(s.violating),
         phase := if m.disablesForeignKeys then Checking(s.phase.next) else Scanning(s.phase.next + 1))
    case CheckPasses =>
      s.(passed := s.passed + {all[s.phase.next].version}, phase := Scanning(s.phase.next + 1))
    case CheckFails => s.(abandoned := s.abandoned + {all[s.phase.next].version}, phase := Failed)
    case CheckErrs => s.(abandoned := s.abandoned + {all[s.phase.next].version}, phase := Failed)
    case Finish => s.(phase := Finished)
    case Crash =>
      s.(phase := Down,
         abandoned := if s.phase.Checking? then s.abandoned + {all[s.phase.next].version} else s.abandoned)
    case Exit => s.(phase := Down)
  }

  ghost predicate Runs(all: seq<Migration>, s: State, steps: seq<Step>, t: State)
    decreases |steps|
  {
    if steps == [] then s == t
    else Enabled(all, s, steps[0]) && Runs(all, Apply(all, s, steps[0]), steps[1..], t)
  }

  function Versions(all: seq<Migration>): (r: seq<int>)
    ensures |r| == |all| && forall i :: 0 <= i < |r| ==> r[i] == all[i].version
  {
    seq(|all|, i requires 0 <= i < |all| => all[i].version)
  }

  ghost predicate DistinctVersions(all: seq<Migration>) {
    forall i, j :: 0 <= i < j < |all| ==> all[i].version != all[j].version
  }

  /** Whether violations stand after the first n migrations, applied in order to a fresh database. */
  function Stands(all: seq<Migration>, n: nat): bool
    requires n <= |all|
  {
    n > 0 && all[n - 1].leaves(Stands(all, n - 1))
  }

  // ---- The committed history is always a prefix ---------------------------------------------

  ghost predicate PhaseFits(all: seq<Migration>, s: State) {
    match s.phase
    case Scanning(next) => next <= |s.committed|
    case InTransaction(next, _) => next == |s.committed| < |all|
    case Checking(next) => next + 1 == |s.committed| && next < |all| && all[next].disablesForeignKeys
    case _ => true
  }

  /** The check of a committed version ended in exactly one way, unless it is the one running now. */
  ghost predicate Judged(all: seq<Migration>, s: State, i: nat)
    requires i < |all|
  {
    all[i].disablesForeignKeys && i < |s.committed| && !(s.phase.Checking? && s.phase.next == i) ==>
      (all[i].version in s.passed <==> all[i].version !in s.abandoned)
  }

  ghost predicate Unjudged(all: seq<Migration>, s: State, i: nat)
    requires i < |all|
  {
    i >= |s.committed| || (s.phase.Checking? && s.phase.next == i) ==>
      all[i].version !in s.passed && all[i].version !in s.abandoned
  }

  /** A passed check saw a database without violations, whichever migration might have left them. */
  ghost predicate Vouched(all: seq<Migration>, s: State, i: nat)
    requires i < |all|
  {
    all[i].version in s.passed ==> !Stands(all, i + 1)
  }

  ghost predicate Inv(all: seq<Migration>, s: State) {
    && |s.committed| <= |all| && s.committed == Versions(all)[..|s.committed|]
    && s.violating == Stands(all, |s.committed|)
    && PhaseFits(all, s)
    && (forall i :: 0 <= i < |all| ==> Judged(all, s, i) && Unjudged(all, s, i) && Vouched(all, s, i))
    && (s.phase.Finished? ==> s.committed == Versions(all))
  }

  lemma PrefixMembership(all: seq<Migration>, s: State, i: nat)
    requires DistinctVersions(all) && Inv(all, s) && i < |all|
    ensures all[i].version in s.committed <==> i < |s.committed|
  {
    if all[i].version in s.committed {
      var k :| 0 <= k < |s.committed| && s.committed[k] == all[i].version;
      assert Versions(all)[k] == all[k].version;
    }
    if i < |s.committed| { assert s.committed[i] == Versions(all)[i]; }
  }

  lemma JudgedStep(all: seq<Migration>, s: State, step: Step, i: nat)
    requires DistinctVersions(all) && Inv(all, s) && Enabled(all, s, step) && i < |all|
    ensures var t := Apply(all, s, step); Judged(all, t, i) && Unjudged(all, t, i) && Vouched(all, t, i)
  {
    assert Judged(all, s, i) && Unjudged(all, s, i) && Vouched(all, s, i);
  }

  lemma CommitPrefix(all: seq<Migration>, s: State)
    requires Inv(all, s) && Enabled(all, s, Commit)
    ensures var t := Apply(all, s, Commit);
            && |t.committed| <= |all| && t.committed == Versions(all)[..|t.committed|]
            && t.violating == Stands(all, |t.committed|)
  {
    var n := |s.committed|;
    assert Versions(all)[..n + 1] == Versions(all)[..n] + [all[n].version];
  }

  lemma InvStep(all: seq<Migration>, s: State, step: Step)
    requires DistinctVersions(all) && Inv(all, s) && Enabled(all, s, step)
    ensures Inv(all, Apply(all, s, step))
  {
    var t := Apply(all, s, step);
    if step.Skip? || step.Begin? { PrefixMembership(all, s, s.phase.next); }
    if step.Commit? { CommitPrefix(all, s); }
    if step.Finish? { assert Versions(all)[..|all|] == Versions(all); }
    forall i | 0 <= i < |all| ensures Judged(all, t, i) && Unjudged(all, t, i) && Vouched(all, t, i) {
      JudgedStep(all, s, step, i);
    }
  }

  lemma {:induction false} RunInv(all: seq<Migration>, s: State, steps: seq<Step>, t: State)
    requires DistinctVersions(all) && Inv(all, s) && Runs(all, s, steps, t)
    ensures Inv(all, t)
    decreases |steps|
  {
    if steps == [] {
    } else {
      InvStep(all, s, steps[0]);
      RunInv(all, Apply(all, s, steps[0]), steps[1..], t);
    }
  }

  lemma FreshInv(all: seq<Migration>)
    ensures Inv(all, FRESH)
  {
    assert Versions(all)[..0] == [];
  }

  /**
   Whatever crashes and restarts happen, the committed migrations are a prefix of the version list in order, each
   once, the database is as an uninterrupted run of that prefix leaves it, and a process that finishes leaves exactly
   the history of an uninterrupted run.
   */
  lemma CommittedIsPrefix(all: seq<Migration>, steps: seq<Step>, s: State)
    requires DistinctVersions(all) && Runs(all, FRESH, steps, s)
    ensures |s.committed| <= |all| && s.committed == Versions(all)[..|s.committed|]
    ensures s.violating == Stands(all, |s.committed|)
    ensures forall i, j :: 0 <= i < j < |s.committed| ==> s.committed[i] != s.committed[j]
    ensures s.phase.Finished? ==> s.committed == Versions(all)
  {
    FreshInv(all);
    RunInv(all, FRESH, steps, s);
  }

  /** For the repository's own list, a finished process leaves versions 1 to 127 in order. */
  lemma SourceHistory(leaves: int -> bool -> bool, steps: seq<Step>, s: State)
    requires Runs(SourceMigrations(leaves), FRESH, steps, s)
    ensures |s.committed| <= 127 && forall i :: 0 <= i < |s.committed| ==> s.committed[i] == i + 1
    ensures s.phase.Finished? ==> |s.committed| == 127
  {
    var all := SourceMigrations(leaves);
    CommittedIsPrefix(all, steps, s);
    forall i | 0 <= i < |s.committed| ensures s.committed[i] == i + 1 { assert s.committed[i] == Versions(all)[i]; }
  }

  // ---- What the checks say ------------------------------------------------------------------

  /**
   A passed check vouches for every migration up to its own: after that commit no violation stood anywhere in the
   database, however earlier checks ended.
   */
  lemma PassedVouches(all: seq<Migration>, steps: seq<Step>, s: State, i: nat)
    requires DistinctVersions(all) && Runs(all, FRESH, steps, s) && i < |all| && all[i].version in s.passed
    ensures i < |s.committed| && !Stands(all, i + 1)
  {
    FreshInv(all);
    RunInv(all, FRESH, steps, s);
    assert Unjudged(all, s, i) && Vouched(all, s, i);
  }

  /** Violations that have stood since the k-th commit have met no passed check since: a later check would see them. */
  lemma StandingUnseen(all: seq<Migration>, steps: seq<Step>, s: State, k: nat, i: nat)
    requires DistinctVersions(all) && Runs(all, FRESH, steps, s) && k <= i < |s.committed| <= |all|
    requires forall n :: k < n <= |s.committed| ==> Stands(all, n)
    ensures all[i].version !in s.passed
  {
    if all[i].version in s.passed { PassedVouches(all, steps, s, i); }
  }

  /** For the repository's own list these are the checks of the six versions, and only those. */
  lemma SourceChecks(leaves: int -> bool -> bool, steps: seq<Step>, s: State, version: int)
    requires Runs(SourceMigrations(leaves), FRESH, steps, s) && s.phase.Finished? && 1 <= version <= 127
    ensures version in {18, 20, 35, 44, 97, 119} ==> (version in s.passed <==> version !in s.abandoned)
  {
    var all := SourceMigrations(leaves);
    assert all[version - 1].version == version;
    if version in {18, 20, 35, 44, 97, 119} { CheckedIffNotAbandoned(all, steps, s, version - 1); }
  }

  /**
   When a process finishes, the foreign-key check of a migration has passed exactly when no process failed it, met an
   error in it or died in it: after a restart the committed version is skipped and its check does not run again.
   */
  lemma CheckedIffNotAbandoned(all: seq<Migration>, steps: seq<Step>, s: State, i: nat)
    requires DistinctVersions(all) && Runs(all, FRESH, steps, s) && s.phase.Finished?
    requires i < |all| && all[i].disablesForeignKeys
    ensures all[i].version in s.passed <==> all[i].version !in s.abandoned
  {
    FreshInv(all);
    RunInv(all, FRESH, steps, s);
    assert Judged(all, s, i);
  }

  /** The version is recorded, its check has not passed and is not running: what a restarting process finds. */
  ghost predicate Unchecked(all: seq<Migration>, s: State, i: nat)
    requires i < |all|
  {
    all[i].version in s.committed && all[i].version !in s.passed && !(s.phase.Checking? && s.phase.next == i)
  }

  lemma UncheckedStep(all: seq<Migration>, s: State, step: Step, i: nat)
    requires DistinctVersions(all) && Inv(all, s) && Enabled(all, s, step) && i < |all| && Unchecked(all, s, i)
    ensures Unchecked(all, Apply(all, s, step), i)
  {
    PrefixMembership(all, s, i);
  }

  /**
   The own check of a recorded version that has not passed and is not running never runs again, whatever processes
   follow. What the migration left is seen by the checks of later migrations only.
   */
  lemma {:induction false} NeverCheckedAgain(all: seq<Migration>, s: State, steps: seq<Step>, t: State, i: nat)
    requires DistinctVersions(all) && Inv(all, s) && Runs(all, s, steps, t) && i < |all| && Unchecked(all, s, i)
    ensures Unchecked(all, t, i)
    decreases |steps|
  {
    if steps == [] {
    } else {
      UncheckedStep(all, s, steps[0], i);
      InvStep(all, s, steps[0]);
      NeverCheckedAgain(all, Apply(all, s, steps[0]), steps[1..], t, i);
    }
  }

  // ---- When a process can finish ------------------------------------------------------------

  /** The first migration whose check is still to come. */
  function Ahead(all: seq<Migration>, s: State): nat {
    if s.phase.Checking? then s.phase.next else |s.committed|
  }

  /** No violation stands when the check of migration j runs. */
  predicate ClearAt(all: seq<Migration>, j: nat)
    requires j < |all|
  {
    all[j].disablesForeignKeys ==> !Stands(all, j + 1)
  }

  /** No check still to come meets a standing violation. */
  ghost predicate Clear(all: seq<Migration>, from: nat) {
    forall j :: from <= j < |all| ==> ClearAt(all, j)
  }

  predicate Living(s: State) { !s.phase.Down? && !s.phase.Failed? }

  /** The steps belong to one process: it neither crashes nor exits. */
  ghost predicate OneProcess(steps: seq<Step>) {
    forall i :: 0 <= i < |steps| ==> !steps[i].Crash? && !steps[i].Exit?
  }

  lemma RunsCons(all: seq<Migration>, s: State, step: Step, rest: seq<Step>, t: State)
    requires Enabled(all, s, step) && Runs(all, Apply(all, s, step), rest, t)
    ensures Runs(all, s, [step] + rest, t)
  {
    assert ([step] + rest)[1..] == rest;
  }

  function Position(all: seq<Migration>, s: State): nat {
    match s.phase
    case Scanning(next) => next
    case InTransaction(next, _) => next
    case Checking(next) => next
    case _ => |all|
  }

  function Stage(s: State): nat {
    match s.phase
    case Scanning(_) => 4
    case InTransaction(_, applied) => if applied then 2 else 3
    case Checking(_) => 1
    case _ => 0
  }

  /** The step of a process to which nothing happens. */
  function NextStep(all: seq<Migration>, s: State): Step {
    match s.phase
    case Scanning(next) =>
      if next >= |all| then Finish else if all[next].version in s.committed then Skip else Begin
    case InTransaction(_, applied) => if applied then Commit else ApplySucceeds
    case _ => CheckPasses
  }

  lemma NextStepKeepsClear(all: seq<Migration>, s: State)
    requires DistinctVersions(all) && Inv(all, s) && Living(s) && !s.phase.Finished? && Clear(all, Ahead(all, s))
    ensures Enabled(all, s, NextStep(all, s))
    ensures var t := Apply(all, s, NextStep(all, s));
            && Living(t) && Clear(all, Ahead(all, t))
            && (|all| - Position(all, t) < |all| - Position(all, s)
                || (Position(all, t) == Position(all, s) && Stage(t) < Stage(s)))
  {
    if s.phase.Scanning? && s.phase.next < |all| { PrefixMembership(all, s, s.phase.next); }
    if s.phase.Checking? { assert ClearAt(all, s.phase.next); }
  }

  lemma {:induction false} ClearFinishes(all: seq<Migration>, s: State) returns (steps: seq<Step>, t: State)
    requires DistinctVersions(all) && Inv(all, s) && Living(s) && Clear(all, Ahead(all, s))
    ensures Runs(all, s, steps, t) && OneProcess(steps) && t.phase.Finished? && t.abandoned == s.abandoned
    decreases |all| - Position(all, s), Stage(s)
  {
    if s.phase.Finished? {
      return [], s;
    }
    var step := NextStep(all, s);
    NextStepKeepsClear(all, s);
    InvStep(all, s, step);
    var rest;
    rest, t := ClearFinishes(all, Apply(all, s, step));
    RunsCons(all, s, step, rest, t);
    steps := [step] + rest;
  }

  lemma StepNeedsClear(all: seq<Migration>, s: State, step: Step)
    requires Inv(all, s) && Enabled(all, s, step) && !step.Crash? && !step.Exit? && Living(s)
    requires Living(Apply(all, s, step)) && Clear(all, Ahead(all, Apply(all, s, step)))
    ensures Clear(all, Ahead(all, s))
  {
    if step.CheckPasses? { assert ClearAt(all, s.phase.next); }
  }

  lemma {:induction false} FinishNeedsClear(all: seq<Migration>, s: State, steps: seq<Step>, t: State)
    requires DistinctVersions(all) && Inv(all, s) && Living(s) && Runs(all, s, steps, t)
    requires OneProcess(steps) && t.phase.Finished?
    ensures Clear(all, Ahead(all, s))
    decreases |steps|
  {
    if steps == [] {
    } else {
      var next := Apply(all, s, steps[0]);
      InvStep(all, s, steps[0]);
      assert Living(next) by { if next.phase.Failed? { FailedStays(all, next, steps[1..], t); } }
      FinishNeedsClear(all, next, steps[1..], t);
      StepNeedsClear(all, s, steps[0]);
    }
  }

  /** A process that has failed does nothing more. */
  lemma FailedStays(all: seq<Migration>, s: State, steps: seq<Step>, t: State)
    requires s.phase.Failed? && Runs(all, s, steps, t) && OneProcess(steps)
    ensures steps == [] && t == s
  {
  }

  ghost predicate Finishes(all: seq<Migration>, s: State, steps: seq<Step>, t: State) {
    Runs(all, s, steps, t) && OneProcess(steps) && t.phase.Finished?
  }

  /** A living process can finish if and only if no check still to come meets a standing violation. */
  lemma CanFinish(all: seq<Migration>, s: State)
    requires DistinctVersions(all) && Inv(all, s) && Living(s)
    ensures (exists steps, t :: Finishes(all, s, steps, t)) <==> Clear(all, Ahead(all, s))
  {
    if steps, t :| Finishes(all, s, steps, t) { FinishNeedsClear(all, s, steps, t); }
    if Clear(all, Ahead(all, s)) {
      var steps, t := ClearFinishes(all, s);
      assert Finishes(all, s, steps, t);
    }
  }

  lemma RestartAfterFailure(all: seq<Migration>) returns (steps: seq<Step>, s: State)
    requires |all| > 0 && all[0].disablesForeignKeys && all[0].leaves(false)
    ensures Runs(all, FRESH, steps, s) && s == State([all[0].version], true, Scanning(0), {}, {all[0].version})
  {
    var v := all[0].version;
    var s1 := FRESH.(phase := Scanning(0));
    var s2 := s1.(phase := InTransaction(0, false));
    var s3 := s1.(phase := InTransaction(0, true));
    var s4 := State([v], true, Checking(0), {}, {});
    var s5 := State([v], true, Failed, {}, {v});
    var s6 := s5.(phase := Down);
    s := s5.(phase := Scanning(0));
    assert Apply(all, s3, Commit) == s4 && Apply(all, s4, CheckFails) == s5;
    RunsCons(all, s6, StartProcess, [], s);
    RunsCons(all, s5, Exit, [StartProcess] + [], s);
    var restart := [Exit] + ([StartProcess] + []);
    RunsCons(all, s4, CheckFails, restart, s);
    RunsCons(all, s3, Commit, [CheckFails] + restart, s);
    RunsCons(all, s2, ApplySucceeds, [Commit] + ([CheckFails] + restart), s);
    var applying := [ApplySucceeds] + ([Commit] + ([CheckFails] + restart));
    RunsCons(all, s1, Begin, applying, s);
    RunsCons(all, FRESH, StartProcess, [Begin] + applying, s);
    steps := [StartProcess] + ([Begin] + applying);
  }

  /** A failed check is forgotten: the next process finishes, and the violations stand. */
  lemma FailedCheckForgotten(version: int) returns (all: seq<Migration>, steps: seq<Step>, s: State)
    ensures |all| == 1 && all[0].version == version && all[0].disablesForeignKeys && Runs(all, FRESH, steps, s)
    ensures s.phase.Finished? && s.committed == [version] && version !in s.passed && s.violating
  {
    all := [Migration(version, true, _ => true)];
    var before, restarted := RestartAfterFailure(all);
    FreshInv(all);
    RunInv(all, FRESH, before, restarted);
    RunsExtend(all, FRESH, before, restarted, Skip);
    var skipped := Apply(all, restarted, Skip);
    RunsExtend(all, FRESH, before + [Skip], skipped, Finish);
    steps, s := before + [Skip] + [Finish], Apply(all, skipped, Finish);
  }

  /** Violations that the first migration left make the check of the second fail: no restarted process can finish. */
  lemma StandingViolationBlocks() returns (all: seq<Migration>, steps: seq<Step>, s: State)
    ensures DistinctVersions(all) && Runs(all, FRESH, steps, s) && Living(s)
    ensures !exists more, t :: Finishes(all, s, more, t)
  {
    all := [Migration(1, true, _ => true), Migration(2, true, v => v)];
    steps, s := RestartAfterFailure(all);
    FreshInv(all);
    RunInv(all, FRESH, steps, s);
    assert Stands(all, 1) && Stands(all, 2);
    assert !ClearAt(all, 1);
    CanFinish(all, s);
  }

  // ---- One process --------------------------------------------------------------------------

  lemma {:induction false} RunsExtend(all: seq<Migration>, s: State, steps: seq<Step>, t: State, step: Step)
    requires DistinctVersions(all) && Runs(all, s, steps, t) && Inv(all, t) && Enabled(all, t, step)
    ensures Runs(all, s, steps + [step], Apply(all, t, step)) && Inv(all, Apply(all, t, step))
    decreases |steps|
  {
    InvStep(all, t, step);
    if steps == [] {
      assert Runs(all, Apply(all, t, step), [], Apply(all, t, step));
      assert [step][1..] == [];
    } else {
      RunsExtend(all, Apply(all, s, steps[0]), steps[1..], t, step);
      assert (steps + [step])[1..] == steps[1..] + [step];
    }
  }

  /** `steps` leads from s to t, and t is sound. */
  ghost predicate Went(all: seq<Migration>, s: State, steps: seq<Step>, t: State) {
    Inv(all, t) && Runs(all, s, steps, t)
  }

  lemma Launch(all: seq<Migration>, s: State) returns (steps: seq<Step>)
    requires DistinctVersions(all) && Inv(all, s) && s.phase.Down?
    ensures Arrived(all, s, steps, s.(phase := Scanning(0)), 0)
  {
    RunsExtend(all, s, [], s, StartProcess);
    steps := [] + [StartProcess];
    forall k | 0 <= k < |all| ensures PassedAt(all[k], s.passed, s.passed, |s.committed| <= k < 0) {}
  }

  lemma StopAt(all: seq<Migration>, s: State)
    requires DistinctVersions(all) && Inv(all, s) && (s.phase.Failed? || s.phase.Finished?)
    ensures Inv(all, s.(phase := Down))
  {
    InvStep(all, s, Exit);
  }

  lemma Conclude(all: seq<Migration>, s: State, steps: seq<Step>, t: State)
    requires DistinctVersions(all) && Arrived(all, s, steps, t, |all|) && t.phase == Scanning(|all|)
    ensures Went(all, s, steps + [Finish], t.(phase := Finished)) && Inv(all, t.(phase := Down))
    ensures t.committed == Versions(all)
  {
    RunsExtend(all, s, steps, t, Finish);
    StopAt(all, t.(phase := Finished));
  }

  /** What happens to migration i besides the violations it leaves: its transaction or its check may meet an error. */
  datatype Verdict = Fails | CheckError | Succeeds

  /** The migration goes through; without switched-off foreign keys there is no check. */
  predicate GoesThrough(all: seq<Migration>, i: nat, v: Verdict)
    requires i < |all|
  {
    (v.Succeeds? || (v.CheckError? && !all[i].disablesForeignKeys)) && ClearAt(all, i)
  }

  /** The versions whose check passes while migration i is applied. */
  function Newly(all: seq<Migration>, i: nat): set<int>
    requires i < |all|
  {
    if all[i].disablesForeignKeys then {all[i].version} else {}
  }

  /** The schema_migrations table, whether violations stand, and what became of the foreign-key checks. */
  class Schema {
    var applied: seq<int>
    var violating: bool
    ghost var passed: set<int>
    ghost var abandoned: set<int>

    ghost function At(phase: Phase): State
      reads this
    {
      State(applied, violating, phase, passed, abandoned)
    }

    constructor ()
      ensures At(Down) == FRESH
    {
      applied, violating, passed, abandoned := [], false, {}, {};
    }

    /** One migration that is not recorded yet. */
    method ApplyOne(all: seq<Migration>, i: nat, verdict: Verdict, ghost start: State, ghost before: seq<Step>)
      returns (ok: bool, ghost steps: seq<Step>)
      requires DistinctVersions(all) && i < |all| && all[i].version !in applied
      requires Went(all, start, before, At(Scanning(i)))
      modifies this
      ensures ok <==> GoesThrough(all, i, verdict)
      ensures ok ==> applied == old(applied) + [all[i].version] && passed == old(passed) + Newly(all, i)
      ensures Went(all, start, steps, At(if ok then Scanning(i + 1) else Failed))
    {
      ghost var s := At(Scanning(i));
      RunsExtend(all, start, before, s, Begin);
      steps, s := before + [Begin], Apply(all, s, Begin);
      if verdict.Fails? {
        RunsExtend(all, start, steps, s, ApplyFails);
        return false, steps + [ApplyFails];
      }
      RunsExtend(all, start, steps, s, ApplySucceeds);
      steps, s := steps + [ApplySucceeds], Apply(all, s, ApplySucceeds);
      RunsExtend(all, start, steps, s, Commit);
      steps, s := steps + [Commit], Apply(all, s, Commit);
      applied, violating := applied + [all[i].version], all[i].leaves(violating);
      ok := true;
      if all[i].disablesForeignKeys { ok, steps := CheckOne(all, i, verdict, start, steps); }
    }

    /** The check of the whole database after the commit. */
    method CheckOne(all: seq<Migration>, i: nat, verdict: Verdict, ghost start: State, ghost before: seq<Step>)
      returns (ok: bool, ghost steps: seq<Step>)
      requires DistinctVersions(all) && i < |all| && Went(all, start, before, At(Checking(i)))
      modifies this`passed, this`abandoned
      ensures ok <==> !verdict.CheckError? && !Stands(all, i + 1)
      ensures ok ==> passed == old(passed) + {all[i].version}
      ensures Went(all, start, steps, At(if ok then Scanning(i + 1) else Failed))
    {
      ok := !verdict.CheckError? && !violating;
      ghost var step := if ok then CheckPasses else if verdict.CheckError? then CheckErrs else CheckFails;
      RunsExtend(all, start, before, At(Checking(i)), step);
      steps := before + [step];
      if ok {
        passed := passed + {all[i].version};
      } else {
        abandoned := abandoned + {all[i].version};
      }
    }

    /** One turn of the loop: recorded migrations are skipped. */
    method Advance(all: seq<Migration>, i: nat, verdict: Verdict, ghost start: State, ghost before: seq<Step>)
      returns (ok: bool, ghost steps: seq<Step>)
      requires DistinctVersions(all) && i < |all| && Arrived(all, start, before, At(Scanning(i)), i)
      modifies this
      ensures ok <==> i < |start.committed| || GoesThrough(all, i, verdict)
      ensures ok ==> Arrived(all, start, steps, At(Scanning(i + 1)), i + 1)
      ensures !ok ==> Went(all, start, steps, At(Failed)) && Inv(all, At(Down))
    {
      ghost var was := passed;
      PrefixMembership(all, At(Scanning(i)), i);
      if all[i].version in applied {
        RunsExtend(all, start, before, At(Scanning(i)), Skip);
        PassedNext(all, start.passed, was, passed, |start.committed|, i);
        return true, before + [Skip];
      }
      ok, steps := ApplyOne(all, i, verdict, start, before);
      if ok { PassedNext(all, start.passed, was, passed, |start.committed|, i); } else { StopAt(all, At(Failed)); }
    }

    /**
     Migrate: one run of the state machine. It succeeds exactly when every missing migration goes through, and then the
     checks that have passed are those that had passed before the start and those of the missing migrations.
     */
    method Migrate(all: seq<Migration>, verdicts: nat -> Verdict) returns (ok: bool, ghost steps: seq<Step>)
      requires DistinctVersions(all) && Inv(all, At(Down))
      modifies this
      ensures Went(all, old(At(Down)), steps, At(if ok then Finished else Failed)) && Inv(all, At(Down))
      ensures ok <==> forall i :: |old(applied)| <= i < |all| ==> GoesThrough(all, i, verdicts(i))
      ensures ok ==> applied == Versions(all) && PassedTo(all, old(passed), passed, |old(applied)|, |all|)
    {
      ghost var start := At(Down);
      steps := Launch(all, start);
      var i := 0;
      while i < |all|
        invariant 0 <= i <= |all| && Arrived(all, start, steps, At(Scanning(i)), i)
        invariant forall k :: |start.committed| <= k < i ==> GoesThrough(all, k, verdicts(k))
      {
        ok, steps := Advance(all, i, verdicts(i), start, steps);
        if !ok { return; }
        i := i + 1;
      }
      Conclude(all, start, steps, At(Scanning(i)));
      return true, steps + [Finish];
    }
  }

  /** The process that started from `start` has come to migration i. */
  ghost predicate Arrived(all: seq<Migration>, start: State, steps: seq<Step>, t: State, i: nat) {
    && Went(all, start, steps, t)
    && |t.committed| == (if i <= |start.committed| then |start.committed| else i)
    && PassedTo(all, start.passed, t.passed, |start.committed|, i)
  }

  /** The checks that have passed are those in `was`, and those of the versions from position `had` up to i. */
  ghost predicate PassedTo(all: seq<Migration>, was: set<int>, passed: set<int>, had: nat, i: nat) {
    forall k :: 0 <= k < |all| ==> PassedAt(all[k], was, passed, had <= k < i)
  }

  predicate PassedAt(m: Migration, was: set<int>, passed: set<int>, now: bool) {
    m.disablesForeignKeys ==> (m.version in passed <==> m.version in was || now)
  }

  lemma PassedNext(all: seq<Migration>, was: set<int>, before: set<int>, passed: set<int>, had: nat, i: nat)
    requires DistinctVersions(all) && i < |all| && PassedTo(all, was, before, had, i)
    requires passed == before + if i < had then {} else Newly(all, i)
    ensures PassedTo(all, was, passed, had, i + 1)
  {
    forall k | 0 <= k < |all| ensures PassedAt(all[k], was, passed, had <= k < i + 1) {
      assert PassedAt(all[k], was, before, had <= k < i);
    }
  }
}
