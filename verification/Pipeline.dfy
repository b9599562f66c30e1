/**
 The streamed provider scan as a state machine: a driver goroutine that sends numbered entries to
 a bounded channel, workers that project them, a second bounded channel, and a consumer that
 restores provider order. Every interleaving and every cancellation point is a run of this machine.
 */
module Pipeline {
  import opened Common
  import opened Scan

  datatype Batch = Batch(directories: seq<Entry>, entries: seq<Entry>, partial: bool)

  /** The stream, and the sequence numbers whose processing panics. The source uses 128, 256 and 256. */
  datatype Config = Config(
    batches: seq<Batch>, rules: Rules, panics: set<nat>, workers: nat, jobCapacity: nat, doneCapacity: nat)
  {
    predicate Valid() { workers > 0 && jobCapacity > 0 && doneCapacity > 0 }
  }

  function AllEntries(batches: seq<Batch>): seq<Entry> {
    if batches == [] then [] else batches[0].entries + AllEntries(batches[1..])
  }

  function AllDirectories(batches: seq<Batch>): seq<Entry> {
    if batches == [] then [] else batches[0].directories + AllDirectories(batches[1..])
  }

  predicate AnyPartial(batches: seq<Batch>) {
    batches != [] && (batches[0].partial || AnyPartial(batches[1..]))
  }

  /** The tree a bulk listing of the same stream returns. */
  function BulkTree(batches: seq<Batch>): Tree {
    Tree(AllDirectories(batches), AllEntries(batches), AnyPartial(batches))
  }

  function Stream(cfg: Config): seq<Entry> { AllEntries(cfg.batches) }

  /** safelyProcessProviderTreeEntry: a panic becomes a failed item. */
  function Outcome(cfg: Config, i: nat): Projected
    requires i < |Stream(cfg)|
  {
    if i in cfg.panics then Failed else Project(cfg.rules, Stream(cfg)[i])
  }

  function Outcomes(cfg: Config): (r: seq<Projected>)
    ensures |r| == |Stream(cfg)|
    ensures forall i :: 0 <= i < |r| ==> r[i] == Outcome(cfg, i)
  {
    seq(|Stream(cfg)|, i requires 0 <= i < |Stream(cfg)| => Outcome(cfg, i))
  }

  // ---- States and steps --------------------------------------------------------------------

  datatype Job = Job(sequence: nat, entry: Entry)

  datatype Done = Done(sequence: nat, item: Projected)

  datatype Worker = Idle | Busy(job: Job) | Holding(done: Done) | Exited

  datatype Producer = Streaming | Returned(err: bool) | JobsClosed(err: bool) | ProcessedClosed(err: bool) {
    predicate ClosedJobs() { JobsClosed? || ProcessedClosed? }
  }

  /**
   `dropped` records the numbers that workers gave up on cancellation, `swallowed` that the driver returned nil
   although its callback had reported the cancellation.
   */
  datatype State = State(
    todo: seq<Batch>, current: seq<Entry>, sequence: nat, directories: seq<Entry>, partial: bool,
    producer: Producer, jobs: seq<Job>, workers: seq<Worker>, processed: seq<Done>,
    pending: map<nat, Done>, next: nat, acc: Acc, finished: bool,
    cancelled: bool, dropped: multiset<nat>, swallowed: bool)

  function Init(cfg: Config): State {
    State(cfg.batches, [], 0, [], false, Streaming, [], seq(cfg.workers, _ => Idle), [],
          map[], 0, EMPTY, false, false, multiset{}, false)
  }

  datatype Step =
    | Cancel
    | NextBatch | Send | DriverFails | DriverReturns | CallbackCancelled(err: bool)
    | CloseJobs | CloseProcessed
    | Take(w: nat) | Process(w: nat) | Deliver(w: nat) | Drop(w: nat) | Exit(w: nat)
    | Receive | ConsumeNext | Finish

  predicate Enabled(cfg: Config, s: State, step: Step) {
    match step
    case Cancel => !s.cancelled
    case NextBatch => s.producer.Streaming? && s.current == [] && s.todo != []
    case Send => s.producer.Streaming? && s.current != [] && |s.jobs| < cfg.jobCapacity
    case DriverFails => s.producer.Streaming? && s.current == []
    case DriverReturns => s.producer.Streaming? && s.current == [] && s.todo == []
    case CallbackCancelled(_) => s.producer.Streaming? && s.current != [] && s.cancelled
    case CloseJobs => s.producer.Returned?
    case CloseProcessed => s.producer.JobsClosed? && forall w :: 0 <= w < |s.workers| ==> s.workers[w].Exited?
    case Take(w) => w < |s.workers| && s.workers[w].Idle? && s.jobs != []
    case Process(w) => w < |s.workers| && s.workers[w].Busy?
    case Deliver(w) => w < |s.workers| && s.workers[w].Holding? && |s.processed| < cfg.doneCapacity
    case Drop(w) => w < |s.workers| && s.workers[w].Holding? && s.cancelled
    case Exit(w) => w < |s.workers| && s.workers[w].Idle? && s.jobs == [] && s.producer.ClosedJobs()
    case Receive => !s.finished && s.next !in s.pending && s.processed != []
    case ConsumeNext => !s.finished && s.next in s.pending
    case Finish => !s.finished && s.next !in s.pending && s.processed == [] && s.producer.ProcessedClosed?
  }

  function ProcessJob(cfg: Config, job: Job): Done {
    Done(job.sequence, if job.sequence in cfg.panics then Failed else Project(cfg.rules, job.entry))
  }

  function Apply(cfg: Config, s: State, step: Step): State
    requires Enabled(cfg, s, step)
  {
    match step
    case Cancel => s.(cancelled := true)
    case NextBatch =>
      var b := s.todo[0];
      s.(todo := s.todo[1..], current := b.entries, directories := s.directories + b.directories,
         partial := s.partial || b.partial)
    case Send =>
      s.(jobs := s.jobs + [Job(s.sequence, s.current[0])], current := s.current[1..], sequence := s.sequence + 1)
    case DriverFails => s.(producer := Returned(true))
    case DriverReturns => s.(producer := Returned(false))
    case CallbackCancelled(err) => s.(producer := Returned(err), swallowed := !err)
    case CloseJobs => s.(producer := JobsClosed(s.producer.err))
    case CloseProcessed => s.(producer := ProcessedClosed(s.producer.err))
    case Take(w) => s.(jobs := s.jobs[1..], workers := s.workers[w := Busy(s.jobs[0])])
    case Process(w) => s.(workers := s.workers[w := Holding(ProcessJob(cfg, s.workers[w].job))])
    case Deliver(w) => s.(processed := s.processed + [s.workers[w].done], workers := s.workers[w := Idle])
    case Drop(w) =>
      s.(dropped := s.dropped + multiset{s.workers[w].done.sequence}, workers := s.workers[w := Exited])
    case Exit(w) => s.(workers := s.workers[w := Exited])
    case Receive =>
      s.(pending := s.pending[s.processed[0].sequence := s.processed[0]], processed := s.processed[1..])
    case ConsumeNext =>
      s.(acc := Consume(s.acc, s.pending[s.next].item), pending := s.pending - {s.next}, next := s.next + 1)
    case Finish => s.(finished := true)
  }

  /** `steps` leads from s to t. */
  ghost predicate Runs(cfg: Config, s: State, steps: seq<Step>, t: State)
    decreases |steps|
  {
    if steps == [] then s == t
    else Enabled(cfg, s, steps[0]) && Runs(cfg, Apply(cfg, s, steps[0]), steps[1..], t)
  }

  lemma RunsCons(cfg: Config, s: State, step: Step, rest: seq<Step>, t: State)
    requires Enabled(cfg, s, step) && Runs(cfg, Apply(cfg, s, step), rest, t)
    ensures Runs(cfg, s, [step] + rest, t)
  {
    assert ([step] + rest)[1..] == rest;
  }

  lemma {:induction false} RunsExtend(cfg: Config, s: State, steps: seq<Step>, t: State, step: Step)
    requires Runs(cfg, s, steps, t) && Enabled(cfg, t, step)
    ensures Runs(cfg, s, steps + [step], Apply(cfg, t, step))
    decreases |steps|
  {
    if steps == [] {
      assert Runs(cfg, Apply(cfg, t, step), [], Apply(cfg, t, step));
      assert [step][1..] == [];
    } else {
      RunsExtend(cfg, Apply(cfg, s, steps[0]), steps[1..], t, step);
      assert (steps + [step])[1..] == steps[1..] + [step];
    }
  }

  // ---- No sequence number is ever in two places --------------------------------------------

  function InJobs(jobs: seq<Job>, n: nat): nat {
    if jobs == [] then 0 else InJobs(jobs[..|jobs| - 1], n) + One(jobs[|jobs| - 1].sequence == n)
  }

  function InProcessed(items: seq<Done>, n: nat): nat {
    if items == [] then 0 else InProcessed(items[..|items| - 1], n) + One(items[|items| - 1].sequence == n)
  }

  function InHand(w: Worker, n: nat): nat {
    match w
    case Busy(job) => One(job.sequence == n)
    case Holding(done) => One(done.sequence == n)
    case _ => 0
  }

  function InHands(workers: seq<Worker>, n: nat): nat {
    if workers == [] then 0 else InHand(workers[0], n) + InHands(workers[1..], n)
  }

  lemma {:induction false} InJobsFront(jobs: seq<Job>, n: nat)
    requires jobs != []
    ensures InJobs(jobs, n) == One(jobs[0].sequence == n) + InJobs(jobs[1..], n)
  {
    if |jobs| == 1 {
    } else {
      InJobsFront(jobs[..|jobs| - 1], n);
      assert jobs[1..][..|jobs| - 2] == jobs[..|jobs| - 1][1..];
    }
  }

  lemma {:induction false} InProcessedFront(items: seq<Done>, n: nat)
    requires items != []
    ensures InProcessed(items, n) == One(items[0].sequence == n) + InProcessed(items[1..], n)
  {
    if |items| == 1 {
    } else {
      InProcessedFront(items[..|items| - 1], n);
      assert items[1..][..|items| - 2] == items[..|items| - 1][1..];
    }
  }

  lemma {:induction false} InHandsUpdate(workers: seq<Worker>, i: nat, w: Worker, n: nat)
    requires i < |workers|
    ensures InHands(workers[i := w], n) + InHand(workers[i], n) == InHands(workers, n) + InHand(w, n)
  {
    if i == 0 {
      assert workers[i := w][1..] == workers[1..];
    } else {
      assert workers[i := w][1..] == workers[1..][i - 1 := w];
      InHandsUpdate(workers[1..], i - 1, w, n);
    }
  }

  /** How often n occurs over every place a sequence number can be. */
  function Places(s: State, n: nat): nat {
    InJobs(s.jobs, n) + InHands(s.workers, n) + InProcessed(s.processed, n)
    + One(n in s.pending) + One(n < s.next) + s.dropped[n]
  }

  /** Each number handed out so far is in exactly one place, every other number nowhere. */
  ghost predicate Conserved(s: State) {
    forall n: nat :: Places(s, n) == One(n < s.sequence)
  }

  lemma PlacesOfSend(cfg: Config, s: State, n: nat)
    requires Enabled(cfg, s, Send)
    ensures Places(Apply(cfg, s, Send), n) == Places(s, n) + One(n == s.sequence)
  {
    var t := Apply(cfg, s, Send);
    assert t.jobs[..|t.jobs| - 1] == s.jobs;
  }

  lemma PlacesOfTake(cfg: Config, s: State, w: nat, n: nat)
    requires Enabled(cfg, s, Take(w))
    ensures Places(Apply(cfg, s, Take(w)), n) == Places(s, n)
  {
    InHandsUpdate(s.workers, w, Busy(s.jobs[0]), n);
    InJobsFront(s.jobs, n);
  }

  lemma PlacesOfWorker(cfg: Config, s: State, step: Step, n: nat)
    requires Enabled(cfg, s, step) && (step.Process? || step.Drop? || step.Exit?)
    ensures Places(Apply(cfg, s, step), n) == Places(s, n)
  {
    InHandsUpdate(s.workers, step.w, Apply(cfg, s, step).workers[step.w], n);
  }

  lemma PlacesOfDeliver(cfg: Config, s: State, w: nat, n: nat)
    requires Enabled(cfg, s, Deliver(w))
    ensures Places(Apply(cfg, s, Deliver(w)), n) == Places(s, n)
  {
    var t := Apply(cfg, s, Deliver(w));
    InHandsUpdate(s.workers, w, Idle, n);
    assert t.processed[..|t.processed| - 1] == s.processed;
  }

  lemma PlacesOfReceive(cfg: Config, s: State, n: nat)
    requires Enabled(cfg, s, Receive) && Places(s, n) <= 1
    ensures Places(Apply(cfg, s, Receive), n) == Places(s, n)
  {
    InProcessedFront(s.processed, n);
  }

  /** Every step moves numbers between places and neither loses nor copies one. */
  lemma ConservedStep(cfg: Config, s: State, step: Step)
    requires Conserved(s) && Enabled(cfg, s, step)
    ensures Conserved(Apply(cfg, s, step))
  {
    var t := Apply(cfg, s, step);
    forall n: nat ensures Places(t, n) == One(n < t.sequence) {
      match step
      case Send => PlacesOfSend(cfg, s, n);
      case Take(w) => PlacesOfTake(cfg, s, w, n);
      case Process(w) => PlacesOfWorker(cfg, s, step, n);
      case Drop(w) => PlacesOfWorker(cfg, s, step, n);
      case Exit(w) => PlacesOfWorker(cfg, s, step, n);
      case Deliver(w) => PlacesOfDeliver(cfg, s, w, n);
      case Receive => PlacesOfReceive(cfg, s, n);
      case ConsumeNext => assert Places(s, n) == One(n < s.sequence);
      case _ => assert Places(t, n) == Places(s, n);
    }
  }

  // ---- The invariant ------------------------------------------------------------------------

  /** The driver has emitted a prefix of the stream and of the batch facts. */
  ghost predicate Positioned(cfg: Config, s: State) {
    && s.sequence <= |Stream(cfg)|
    && Stream(cfg)[s.sequence..] == s.current + AllEntries(s.todo)
    && AllDirectories(cfg.batches) == s.directories + AllDirectories(s.todo)
    && AnyPartial(cfg.batches) == (s.partial || AnyPartial(s.todo))
  }

  predicate TrueJob(cfg: Config, job: Job) {
    job.sequence < |Stream(cfg)| && job.entry == Stream(cfg)[job.sequence]
  }

  predicate TrueDone(cfg: Config, done: Done) {
    done.sequence < |Stream(cfg)| && done.item == Outcome(cfg, done.sequence)
  }

  predicate TrueWorker(cfg: Config, w: Worker) {
    (w.Busy? ==> TrueJob(cfg, w.job)) && (w.Holding? ==> TrueDone(cfg, w.done))
  }

  /** Whatever travels through the pipeline is the entry, or the outcome, of its own number. */
  ghost predicate Truthful(cfg: Config, s: State) {
    && (forall i :: 0 <= i < |s.jobs| ==> TrueJob(cfg, s.jobs[i]))
    && (forall i :: 0 <= i < |s.workers| ==> TrueWorker(cfg, s.workers[i]))
    && (forall i :: 0 <= i < |s.processed| ==> TrueDone(cfg, s.processed[i]))
    && (forall k :: k in s.pending ==> s.pending[k].sequence == k && TrueDone(cfg, s.pending[k]))
  }

  /** The result so far is the sequential fold of the first `next` outcomes. */
  ghost predicate Folded(cfg: Config, s: State) {
    s.next <= |Stream(cfg)| && s.acc == Fold(Outcomes(cfg)[..s.next])
  }

  /** The part of the control invariant that speaks of workers and channels. */
  ghost predicate Staffed(cfg: Config, s: State) {
    && |s.workers| == cfg.workers && |s.jobs| <= cfg.jobCapacity && |s.processed| <= cfg.doneCapacity
    && (forall w :: 0 <= w < |s.workers| && s.workers[w].Exited? ==>
          s.dropped != multiset{} || (s.producer.ClosedJobs() && s.jobs == []))
    && (s.producer.ProcessedClosed? ==> forall w :: 0 <= w < |s.workers| ==> s.workers[w].Exited?)
  }

  ghost predicate Controlled(cfg: Config, s: State) {
    && Staffed(cfg, s)
    && (!s.cancelled ==> s.dropped == multiset{} && !s.swallowed)
    && (s.producer.Streaming? ==> !s.swallowed)
    && (s.swallowed ==> s.current != [])
    && (!s.producer.Streaming? && !s.producer.err && !s.swallowed ==> s.current == [] && s.todo == [])
    && (s.finished ==> s.producer.ProcessedClosed? && s.processed == [] && s.next !in s.pending)
  }

  ghost predicate Inv(cfg: Config, s: State) {
    Conserved(s) && Positioned(cfg, s) && Truthful(cfg, s) && Folded(cfg, s) && Controlled(cfg, s)
  }

  lemma {:induction false} IdleHandsEmpty(workers: seq<Worker>, n: nat)
    requires forall w :: 0 <= w < |workers| ==> workers[w].Idle? || workers[w].Exited?
    ensures InHands(workers, n) == 0
  {
    if workers == [] {
    } else {
      IdleHandsEmpty(workers[1..], n);
    }
  }

  lemma InitInv(cfg: Config)
    ensures Inv(cfg, Init(cfg))
  {
    var s := Init(cfg);
    forall n: nat ensures Places(s, n) == 0 { IdleHandsEmpty(s.workers, n); }
    assert Outcomes(cfg)[..0] == [];
  }

  lemma PositionedSend(cfg: Config, s: State)
    requires Positioned(cfg, s) && Enabled(cfg, s, Send)
    ensures Positioned(cfg, Apply(cfg, s, Send))
  {
    var t := Apply(cfg, s, Send);
    var stream, rest := Stream(cfg), AllEntries(s.todo);
    assert (s.current + rest)[1..] == s.current[1..] + rest;
    assert stream[s.sequence..][1..] == stream[s.sequence + 1..];
  }

  lemma PositionedBatch(cfg: Config, s: State)
    requires Positioned(cfg, s) && Enabled(cfg, s, NextBatch)
    ensures Positioned(cfg, Apply(cfg, s, NextBatch))
  {
    var b, rest := s.todo[0], s.todo[1..];
    assert s.current + AllEntries(s.todo) == b.entries + AllEntries(rest);
    assert s.directories + (b.directories + AllDirectories(rest)) == (s.directories + b.directories) +
           AllDirectories(rest);
  }

  lemma PositionedStep(cfg: Config, s: State, step: Step)
    requires Positioned(cfg, s) && Enabled(cfg, s, step)
    ensures Positioned(cfg, Apply(cfg, s, step))
  {
    if step.Send? {
      PositionedSend(cfg, s);
    } else if step.NextBatch? {
      PositionedBatch(cfg, s);
    } else {
      var t := Apply(cfg, s, step);
      assert t.sequence == s.sequence && t.current == s.current && t.todo == s.todo;
      assert t.directories == s.directories && t.partial == s.partial;
    }
  }

  lemma TruthfulWorker(cfg: Config, s: State, step: Step)
    requires Truthful(cfg, s) && Enabled(cfg, s, step)
    requires step.Take? || step.Process? || step.Deliver? || step.Drop? || step.Exit?
    ensures Truthful(cfg, Apply(cfg, s, step))
  {
    var t := Apply(cfg, s, step);
    assert TrueWorker(cfg, s.workers[step.w]);
    assert TrueWorker(cfg, t.workers[step.w]);
  }

  lemma TruthfulSend(cfg: Config, s: State)
    requires Positioned(cfg, s) && Truthful(cfg, s) && Enabled(cfg, s, Send)
    ensures Truthful(cfg, Apply(cfg, s, Send))
  {
    assert Stream(cfg)[s.sequence..][0] == s.current[0];
    assert TrueJob(cfg, Job(s.sequence, s.current[0]));
  }

  lemma TruthfulConsumer(cfg: Config, s: State, step: Step)
    requires Truthful(cfg, s) && Enabled(cfg, s, step) && (step.Receive? || step.ConsumeNext?)
    ensures Truthful(cfg, Apply(cfg, s, step))
  {
    if step.Receive? { assert TrueDone(cfg, s.processed[0]); }
  }

  lemma TruthfulStep(cfg: Config, s: State, step: Step)
    requires Positioned(cfg, s) && Truthful(cfg, s) && Enabled(cfg, s, step)
    ensures Truthful(cfg, Apply(cfg, s, step))
  {
    if step.Take? || step.Process? || step.Deliver? || step.Drop? || step.Exit? {
      TruthfulWorker(cfg, s, step);
    } else if step.Send? {
      TruthfulSend(cfg, s);
    } else if step.Receive? || step.ConsumeNext? {
      TruthfulConsumer(cfg, s, step);
    } else {
      var t := Apply(cfg, s, step);
      assert t.jobs == s.jobs && t.workers == s.workers && t.processed == s.processed && t.pending == s.pending;
    }
  }

  lemma ConsumeFolds(items: seq<Projected>, next: nat, acc: Acc, item: Projected)
    requires next < |items| && item == items[next] && acc == Fold(items[..next])
    ensures Consume(acc, item) == Fold(items[..next + 1])
  {
    FoldNext(items, next);
  }

  lemma FoldedConsume(cfg: Config, s: State)
    requires Truthful(cfg, s) && Folded(cfg, s) && Enabled(cfg, s, ConsumeNext)
    ensures Folded(cfg, Apply(cfg, s, ConsumeNext))
  {
    assert TrueDone(cfg, s.pending[s.next]);
    ConsumeFolds(Outcomes(cfg), s.next, s.acc, s.pending[s.next].item);
  }

  lemma OnlyConsumeFolds(cfg: Config, s: State, step: Step)
    requires Enabled(cfg, s, step) && !step.ConsumeNext?
    ensures Apply(cfg, s, step).next == s.next && Apply(cfg, s, step).acc == s.acc
  {
  }

  lemma FoldedStep(cfg: Config, s: State, step: Step)
    requires Truthful(cfg, s) && Folded(cfg, s) && Enabled(cfg, s, step)
    ensures Folded(cfg, Apply(cfg, s, step))
  {
    if step.ConsumeNext? { FoldedConsume(cfg, s); } else { OnlyConsumeFolds(cfg, s, step); }
  }

  lemma StaffedStep(cfg: Config, s: State, step: Step)
    requires Staffed(cfg, s) && Enabled(cfg, s, step)
    ensures Staffed(cfg, Apply(cfg, s, step))
  {
  }

  lemma ControlledStep(cfg: Config, s: State, step: Step)
    requires Controlled(cfg, s) && Enabled(cfg, s, step)
    ensures Controlled(cfg, Apply(cfg, s, step))
  {
    StaffedStep(cfg, s, step);
  }

  lemma InvStep(cfg: Config, s: State, step: Step)
    requires Inv(cfg, s) && Enabled(cfg, s, step)
    ensures Inv(cfg, Apply(cfg, s, step))
  {
    ConservedStep(cfg, s, step);
    PositionedStep(cfg, s, step);
    TruthfulStep(cfg, s, step);
    FoldedStep(cfg, s, step);
    ControlledStep(cfg, s, step);
  }

  /** In every reachable state of every interleaving, cancelled ones included, the invariant holds. */
  lemma {:induction false} Reachable(cfg: Config, s: State, steps: seq<Step>, t: State)
    requires Inv(cfg, s) && Runs(cfg, s, steps, t)
    ensures Inv(cfg, t)
    decreases |steps|
  {
    if steps == [] {
    } else {
      InvStep(cfg, s, steps[0]);
      Reachable(cfg, Apply(cfg, s, steps[0]), steps[1..], t);
    }
  }

  /** The properties a reader asks of a reachable state, spelled out. */
  lemma ReachableMeaning(cfg: Config, steps: seq<Step>, s: State)
    requires Runs(cfg, Init(cfg), steps, s)
    ensures s.next <= s.sequence <= |Stream(cfg)| && s.acc == Fold(Outcomes(cfg)[..s.next])
    ensures forall n :: n in s.pending ==> s.next <= n < s.sequence
    ensures forall n: nat :: Places(s, n) == One(n < s.sequence)
  {
    InitInv(cfg);
    Reachable(cfg, Init(cfg), steps, s);
    assert Places(s, s.sequence) == 0;
    forall n | n in s.pending ensures s.next <= n < s.sequence { assert Places(s, n) <= 1; }
  }

  // ---- Progress -----------------------------------------------------------------------------

  /** Until the consumer has finished, some step other than a cancellation is enabled. */
  lemma NeverStuck(cfg: Config, s: State) returns (step: Step)
    requires cfg.Valid() && Inv(cfg, s) && !s.finished
    ensures Enabled(cfg, s, step) && step != Cancel
  {
    if s.next in s.pending { return ConsumeNext; }
    if s.processed != [] { return Receive; }
    if w: nat :| w < |s.workers| && s.workers[w].Busy? { return Process(w); }
    if w: nat :| w < |s.workers| && s.workers[w].Holding? { return Deliver(w); }
    if s.producer.Returned? { return CloseJobs; }
    if s.producer.ProcessedClosed? { return Finish; }
    if w: nat :| w < |s.workers| && s.workers[w].Idle? {
      if s.jobs != [] { return Take(w); }
      if s.producer.JobsClosed? { return Exit(w); }
      return if s.current != [] then Send else if s.todo != [] then NextBatch else DriverReturns;
    }
    assert s.workers[0].Exited?;
    if s.producer.JobsClosed? { return CloseProcessed; }
    return if s.current == [] then DriverFails else CallbackCancelled(true);
  }

  function WorkerWeight(w: Worker): nat {
    match w
    case Idle => 1
    case Busy(_) => 5
    case Holding(_) => 4
    case Exited => 0
  }

  function AllWeight(workers: seq<Worker>): nat {
    if workers == [] then 0 else WorkerWeight(workers[0]) + AllWeight(workers[1..])
  }

  lemma {:induction false} AllWeightUpdate(workers: seq<Worker>, i: nat, w: Worker)
    requires i < |workers|
    ensures AllWeight(workers[i := w]) + WorkerWeight(workers[i]) == AllWeight(workers) + WorkerWeight(w)
  {
    if i == 0 {
      assert workers[i := w][1..] == workers[1..];
    } else {
      assert workers[i := w][1..] == workers[1..][i - 1 := w];
      AllWeightUpdate(workers[1..], i - 1, w);
    }
  }

  function ProducerWeight(p: Producer): nat {
    match p
    case Streaming => 3
    case Returned(_) => 2
    case JobsClosed(_) => 1
    case ProcessedClosed(_) => 0
  }

  /** Unsent, queued, in-hand, undelivered and unconsumed work, with the control states still to pass. */
  function Measure(s: State): nat {
    6 * (|s.current| + |AllEntries(s.todo)|) + |s.todo| + 5 * |s.jobs| + AllWeight(s.workers)
    + 2 * |s.processed| + |s.pending| + ProducerWeight(s.producer) + One(!s.finished) + One(!s.cancelled)
  }

  lemma MeasureWorker(cfg: Config, s: State, step: Step)
    requires Enabled(cfg, s, step) && (step.Take? || step.Process? || step.Deliver? || step.Drop? || step.Exit?)
    ensures Measure(Apply(cfg, s, step)) < Measure(s)
  {
    AllWeightUpdate(s.workers, step.w, Apply(cfg, s, step).workers[step.w]);
  }

  lemma PendingSizes(pending: map<nat, Done>, n: nat, done: Done)
    ensures |pending[n := done]| <= |pending| + 1
    ensures n in pending ==> |pending - {n}| == |pending| - 1
  {
    assert pending[n := done].Keys == pending.Keys + {n};
    if n in pending { assert pending.Keys == (pending - {n}).Keys + {n}; }
  }

  lemma MeasureConsumer(cfg: Config, s: State, step: Step)
    requires Enabled(cfg, s, step) && (step.Receive? || step.ConsumeNext?)
    ensures Measure(Apply(cfg, s, step)) < Measure(s)
  {
    if step.ConsumeNext? {
      PendingSizes(s.pending, s.next, s.pending[s.next]);
    } else {
      PendingSizes(s.pending, s.processed[0].sequence, s.processed[0]);
    }
  }

  lemma MeasureStep(cfg: Config, s: State, step: Step)
    requires Enabled(cfg, s, step)
    ensures Measure(Apply(cfg, s, step)) < Measure(s)
  {
    if step.Take? || step.Process? || step.Deliver? || step.Drop? || step.Exit? {
      MeasureWorker(cfg, s, step);
    } else if step.ConsumeNext? || step.Receive? {
      MeasureConsumer(cfg, s, step);
    }
  }

  /** No run is longer than the initial measure, whatever the scheduler does. */
  lemma {:induction false} RunsBounded(cfg: Config, s: State, steps: seq<Step>, t: State)
    requires Runs(cfg, s, steps, t)
    ensures |steps| + Measure(t) <= Measure(s)
    decreases |steps|
  {
    if steps == [] {
    } else {
      MeasureStep(cfg, s, steps[0]);
      RunsBounded(cfg, Apply(cfg, s, steps[0]), steps[1..], t);
    }
  }

  /** From every reachable state the pipeline can be driven to its end, and by the bound it cannot avoid it. */
  lemma {:induction false} Finishes(cfg: Config, s: State) returns (steps: seq<Step>, t: State)
    requires cfg.Valid() && Inv(cfg, s)
    ensures Runs(cfg, s, steps, t) && t.finished && t.cancelled == s.cancelled
    decreases Measure(s)
  {
    if s.finished {
      return [], s;
    }
    var step := NeverStuck(cfg, s);
    InvStep(cfg, s, step);
    MeasureStep(cfg, s, step);
    var rest;
    rest, t := Finishes(cfg, Apply(cfg, s, step));
    RunsCons(cfg, s, step, rest, t);
    steps := [step] + rest;
  }

  // ---- Outcomes -----------------------------------------------------------------------------

  datatype StreamOutcome = StreamOk(result: Result) | StreamErr(result: Result)

  /** What scanProviderTreeStream returns from a finished state. */
  function Answer(s: State): StreamOutcome
    requires s.finished && s.producer.ProcessedClosed?
  {
    var result := Result(s.directories, s.acc.files, s.acc.assets, s.partial || s.acc.failed,
                         s.acc.deduplicated, s.sequence);
    if s.producer.err then StreamErr(result)
    else StreamOk(SortedResult(result.(partial := result.partial || s.acc.Accepted() >= MAX_ENTRIES)))
  }

  /** A finished run in which no worker gave up a result has consumed every number handed out. */
  lemma FinishedConsumed(cfg: Config, s: State)
    requires cfg.Valid() && Inv(cfg, s) && s.finished && s.dropped == multiset{}
    ensures s.next == s.sequence && s.pending == map[]
  {
    assert s.workers[0].Exited?;
    forall n: nat ensures Places(s, n) == One(n in s.pending) + One(n < s.next) { IdleHandsEmpty(s.workers, n); }
    assert Places(s, s.next) == One(s.next < s.sequence);
    assert Places(s, s.sequence) == 0;
    assert s.pending.Keys == {} by {
      assert forall n: nat :: One(n in s.pending) + One(n < s.next) == One(n < s.next);
    }
  }

  lemma StreamExhausted(cfg: Config, s: State)
    requires Inv(cfg, s) && s.finished && !s.producer.err
    ensures !s.swallowed <==> s.sequence == |Stream(cfg)|
    ensures !s.swallowed ==> s.directories == AllDirectories(cfg.batches) && s.partial == AnyPartial(cfg.batches)
  {
    var rest := Stream(cfg)[s.sequence..];
    assert |rest| == |s.current| + |AllEntries(s.todo)|;
  }

  lemma DroppedMeansMissing(cfg: Config, s: State)
    requires Inv(cfg, s) && s.dropped != multiset{}
    ensures s.next < s.sequence
  {
    var n :| n in s.dropped;
    assert Places(s, n) == One(n < s.sequence);
  }

  /** The snapshot of the sequential fold over the whole stream. */
  function SequentialResult(cfg: Config): Result {
    var acc := Fold(Outcomes(cfg));
    SortedResult(Snapshot(BulkTree(cfg.batches), acc, acc.Accepted() >= MAX_ENTRIES))
  }

  lemma CompleteAnswer(cfg: Config, s: State)
    requires cfg.Valid() && Inv(cfg, s) && s.finished && !s.producer.err && s.dropped == multiset{} && !s.swallowed
    ensures s.producer.ProcessedClosed? && s.next == |Stream(cfg)| && Answer(s) == StreamOk(SequentialResult(cfg))
  {
    FinishedConsumed(cfg, s);
    StreamExhausted(cfg, s);
    assert Outcomes(cfg)[..s.next] == Outcomes(cfg);
  }

  /**
   A finished run whose driver returned nil, cancelled or not, has consumed the whole stream exactly when no worker
   took its cancellation branch and the driver did not swallow the cancellation its callback reported; and then it
   returns exactly the sequential result.
   */
  lemma CompleteIff(cfg: Config, steps: seq<Step>, s: State)
    requires cfg.Valid() && Runs(cfg, Init(cfg), steps, s) && s.finished
    ensures s.producer.ProcessedClosed?
    ensures !s.producer.err ==>
              && (s.next == |Stream(cfg)| <==> s.dropped == multiset{} && !s.swallowed)
              && (s.next == |Stream(cfg)| ==> Answer(s) == StreamOk(SequentialResult(cfg)))
  {
    InitInv(cfg);
    Reachable(cfg, Init(cfg), steps, s);
    ReachableMeaning(cfg, steps, s);
    if !s.producer.err {
      if s.dropped != multiset{} {
        DroppedMeansMissing(cfg, s);
      } else if s.swallowed {
        StreamExhausted(cfg, s);
      } else {
        CompleteAnswer(cfg, s);
      }
    }
  }

  // ---- When an incomplete run still gives the sequential answer -----------------------------

  /** Items from k on that are neither files nor assets leave the selection alone. */
  lemma {:induction false} QuietTail(items: seq<Projected>, k: nat, m: nat)
    requires k <= m <= |items| && forall i :: k <= i < m ==> !items[i].Keyed()
    ensures var acc := Fold(items[..k]);
            Fold(items[..m]) == acc.(failed := acc.failed || exists i :: k <= i < m && items[i].Failed?)
    decreases m
  {
    if k == m {
    } else {
      QuietTail(items, k, m - 1);
      FoldNext(items, m - 1);
    }
  }

  /** How many files and assets the fold has met, accepted or dropped. */
  function Met(acc: Acc): nat { acc.Accepted() + acc.deduplicated }

  lemma ConsumeMeets(acc: Acc, item: Projected)
    ensures Met(Consume(acc, item)) == Met(acc) + One(item.Keyed())
  {
  }

  function KeyedIn(items: seq<Projected>, k: nat, m: nat): nat
    requires m <= |items|
  {
    if m <= k then 0 else KeyedIn(items, k, m - 1) + One(items[m - 1].Keyed())
  }

  lemma {:induction false} MetCounts(items: seq<Projected>, k: nat, m: nat)
    requires k <= m <= |items|
    ensures Met(Fold(items[..m])) == Met(Fold(items[..k])) + KeyedIn(items, k, m)
    decreases m
  {
    if k == m {
    } else {
      MetCounts(items, k, m - 1);
      FoldNext(items, m - 1);
      ConsumeMeets(Fold(items[..m - 1]), items[m - 1]);
    }
  }

  lemma {:induction false} NoneKeyed(items: seq<Projected>, k: nat, m: nat)
    requires m <= |items| && KeyedIn(items, k, m) == 0
    ensures forall i :: k <= i < m ==> !items[i].Keyed()
  {
    if m <= k {
    } else {
      NoneKeyed(items, k, m - 1);
    }
  }

  /** The scan would report a partial snapshot even without the items from `next` on. */
  predicate AlreadyPartial(s: State) { s.partial || s.acc.failed || s.acc.Accepted() >= MAX_ENTRIES }

  /** What was not consumed adds nothing: no file, no asset, and no failure that the result does not show anyway. */
  ghost predicate NothingMissed(cfg: Config, s: State) {
    && s.next <= |Stream(cfg)|
    && (forall i :: s.next <= i < |Stream(cfg)| ==> !Outcome(cfg, i).Keyed())
    && (AlreadyPartial(s) || forall i :: s.next <= i < |Stream(cfg)| ==> !Outcome(cfg, i).Failed?)
  }

  /** The result a finished run with this accumulator reports, sorted. */
  function Reported(s: State, acc: Acc, enumerated: nat): Result {
    SortedResult(Result(s.directories, acc.files, acc.assets, s.partial || acc.failed || acc.Accepted() >= MAX_ENTRIES,
                        acc.deduplicated, enumerated))
  }

  lemma ReportedSame(s: State, items: seq<Projected>, k: nat)
    requires k <= |items|
    ensures Reported(s, Fold(items[..k]), |items|) == Reported(s, Fold(items), |items|) <==>
            && (forall i :: k <= i < |items| ==> !items[i].Keyed())
            && (|| s.partial || Fold(items[..k]).failed || Fold(items[..k]).Accepted() >= MAX_ENTRIES
                || forall i :: k <= i < |items| ==> !items[i].Failed?)
  {
    var less, all := Fold(items[..k]), Fold(items);
    assert items[..|items|] == items;
    MetCounts(items, k, |items|);
    if KeyedIn(items, k, |items|) == 0 { NoneKeyed(items, k, |items|); }
    ReportedCounts(s, less, |items|);
    ReportedCounts(s, all, |items|);
    if forall i :: k <= i < |items| ==> !items[i].Keyed() { QuietTail(items, k, |items|); }
  }

  lemma ReportedCounts(s: State, acc: Acc, enumerated: nat)
    ensures var r := Reported(s, acc, enumerated); |r.files| + |r.assets| + r.deduplicated == Met(acc)
  {
    SortedResultCounts(Result(s.directories, acc.files, acc.assets,
                              s.partial || acc.failed || acc.Accepted() >= MAX_ENTRIES, acc.deduplicated, enumerated));
  }

  lemma SequentialIsReported(cfg: Config, s: State)
    requires s.directories == AllDirectories(cfg.batches) && s.partial == AnyPartial(cfg.batches)
    ensures SequentialResult(cfg) == Reported(s, Fold(Outcomes(cfg)), |Outcomes(cfg)|)
  {
  }

  lemma SameAnswer(cfg: Config, s: State)
    requires s.finished && s.producer.ProcessedClosed? && !s.producer.err
    requires s.directories == AllDirectories(cfg.batches) && s.partial == AnyPartial(cfg.batches)
    requires s.sequence == |Stream(cfg)| && Folded(cfg, s)
    ensures Answer(s) == StreamOk(SequentialResult(cfg)) <==> NothingMissed(cfg, s)
  {
    ReportedSame(s, Outcomes(cfg), s.next);
    SequentialIsReported(cfg, s);
    assert Answer(s) == StreamOk(Reported(s, s.acc, s.sequence));
  }

  /** A stream cut short is enumerated short. */
  lemma ShortAnswer(cfg: Config, s: State)
    requires s.finished && s.producer.ProcessedClosed? && !s.producer.err && s.sequence != |Stream(cfg)|
    ensures Answer(s) != StreamOk(SequentialResult(cfg))
  {
  }

  /**
   A finished run whose driver returned nil gives the sequential answer, complete or not, if and only if the driver
   did not swallow a cancellation and what was not consumed adds nothing.
   */
  lemma SameAnswerIff(cfg: Config, steps: seq<Step>, s: State)
    requires cfg.Valid() && Runs(cfg, Init(cfg), steps, s) && s.finished
    ensures s.producer.ProcessedClosed?
    ensures !s.producer.err ==>
              (Answer(s) == StreamOk(SequentialResult(cfg)) <==> !s.swallowed && NothingMissed(cfg, s))
  {
    InitInv(cfg);
    Reachable(cfg, Init(cfg), steps, s);
    if !s.producer.err {
      StreamExhausted(cfg, s);
      if s.swallowed { ShortAnswer(cfg, s); } else { SameAnswer(cfg, s); }
    }
  }

  /**
   Any finished run whose context was not cancelled returns, if the driver reported no error, exactly the
   sequential result: the interleaving does not matter.
   */
  lemma RefinesSequential(cfg: Config, steps: seq<Step>, s: State)
    requires cfg.Valid() && Runs(cfg, Init(cfg), steps, s)
    requires s.finished && !s.cancelled
    ensures s.producer.ProcessedClosed? && s.sequence <= |Stream(cfg)|
    ensures !s.producer.err ==> Answer(s) == StreamOk(SequentialResult(cfg))
    ensures s.producer.err ==> s.acc == Fold(Outcomes(cfg)[..s.sequence])
  {
    InitInv(cfg);
    Reachable(cfg, Init(cfg), steps, s);
    FinishedConsumed(cfg, s);
    if !s.producer.err { CompleteAnswer(cfg, s); }
  }

  /** Without panics the pipeline and the bulk scan of the same stream agree exactly when the entry limit allows. */
  lemma PipelineAgreesWithBulk(cfg: Config, steps: seq<Step>, s: State)
    requires cfg.Valid() && cfg.panics == {} && Runs(cfg, Init(cfg), steps, s)
    requires s.finished && s.producer.ProcessedClosed? && !s.producer.err && s.dropped == multiset{} && !s.swallowed
    ensures var acc := Fold(Items(cfg.rules, Stream(cfg)));
            Answer(s) == StreamOk(BulkResult(cfg.rules, BulkTree(cfg.batches))) <==>
            acc.Accepted() < MAX_ENTRIES
            || (acc.Accepted() == MAX_ENTRIES && (AnyPartial(cfg.batches) || acc.failed))
  {
    CompleteIff(cfg, steps, s);
    assert Outcomes(cfg) == Items(cfg.rules, Stream(cfg));
    StreamAgreesWithBulk(cfg.rules, BulkTree(cfg.batches));
  }

  // ---- Why the context must outlive the run -------------------------------------------------

  /** Idle workers leave one after the other once the jobs channel is closed and drained. */
  lemma {:induction false} ExitAll(cfg: Config, s: State, w: nat) returns (steps: seq<Step>, t: State)
    requires s.jobs == [] && s.producer.ClosedJobs() && w <= |s.workers|
    requires forall i :: 0 <= i < |s.workers| ==> if i < w then s.workers[i].Exited? else s.workers[i].Idle?
    ensures Runs(cfg, s, steps, t)
    ensures t == s.(workers := t.workers) && forall i :: 0 <= i < |t.workers| ==> t.workers[i].Exited?
    decreases |s.workers| - w
  {
    if w == |s.workers| {
      return [], s;
    }
    var rest;
    rest, t := ExitAll(cfg, Apply(cfg, s, Exit(w)), w + 1);
    RunsCons(cfg, s, Exit(w), rest, t);
    steps := [Exit(w)] + rest;
  }

  lemma {:induction false} RunsCompose(cfg: Config, s: State, a: seq<Step>, m: State, b: seq<Step>, t: State)
    requires Runs(cfg, s, a, m) && Runs(cfg, m, b, t)
    ensures Runs(cfg, s, a + b, t)
    decreases |a|
  {
    if a == [] {
      assert a + b == b;
    } else {
      RunsCompose(cfg, Apply(cfg, s, a[0]), a[1..], m, b, t);
      assert (a + b)[1..] == a[1..] + b;
    }
  }

  lemma SingleSent(cfg: Config, e: Entry) returns (steps: seq<Step>, s: State)
    requires cfg.Valid() && cfg.batches == [Batch([], [e], false)]
    ensures Runs(cfg, Init(cfg), steps, s)
    ensures s == Init(cfg).(todo := [], sequence := 1, producer := JobsClosed(false), jobs := [Job(0, e)])
  {
    var s0 := Init(cfg);
    var s1 := Apply(cfg, s0, NextBatch);
    assert s1 == s0.(todo := [], current := [e]);
    var s2 := Apply(cfg, s1, Send);
    assert s2 == s0.(todo := [], sequence := 1, jobs := [Job(0, e)]);
    var s3 := s2.(producer := Returned(false));
    s := s2.(producer := JobsClosed(false));
    RunsCons(cfg, s3, CloseJobs, [], s);
    RunsCons(cfg, s2, DriverReturns, [CloseJobs] + [], s);
    RunsCons(cfg, s1, Send, [DriverReturns] + ([CloseJobs] + []), s);
    RunsCons(cfg, s0, NextBatch, [Send] + ([DriverReturns] + ([CloseJobs] + [])), s);
    steps := [NextBatch] + ([Send] + ([DriverReturns] + ([CloseJobs] + [])));
  }

  /** Worker 0 takes the only queued job and, the context now cancelled, gives its result up. */
  lemma SingleDropped(cfg: Config, s: State) returns (steps: seq<Step>, t: State)
    requires |s.jobs| == 1 && s.jobs[0].sequence == 0 && !s.cancelled
    requires |s.workers| > 0 && s.workers[0].Idle? && s.dropped == multiset{}
    ensures Runs(cfg, s, steps, t)
    ensures t == s.(jobs := [], cancelled := true, dropped := multiset{0}, workers := s.workers[0 := Exited])
  {
    var s1 := Apply(cfg, s, Take(0));
    var s2 := Apply(cfg, s1, Process(0));
    var s3 := s2.(cancelled := true);
    t := Apply(cfg, s3, Drop(0));
    assert t.workers == s.workers[0 := Exited];
    RunsCons(cfg, s3, Drop(0), [], t);
    RunsCons(cfg, s2, Cancel, [Drop(0)] + [], t);
    RunsCons(cfg, s1, Process(0), [Cancel] + ([Drop(0)] + []), t);
    RunsCons(cfg, s, Take(0), [Process(0)] + ([Cancel] + ([Drop(0)] + [])), t);
    steps := [Take(0)] + ([Process(0)] + ([Cancel] + ([Drop(0)] + [])));
  }

  /**
   A context cancelled after the driver returned nil can make the scan report success, not partial, with a file
   missing: a worker took its cancellation branch.
   */
  lemma CancelledRunLosesItem(cfg: Config, e: Entry) returns (steps: seq<Step>, s: State)
    requires cfg.Valid() && cfg.batches == [Batch([], [e], false)] && cfg.panics == {}
    requires Project(cfg.rules, e).FileItem?
    ensures Runs(cfg, Init(cfg), steps, s) && s.finished && s.producer == ProcessedClosed(false)
    ensures Answer(s).StreamOk? && !Answer(s).result.partial && Answer(s).result.enumerated == 1
    ensures Answer(s).result.files == [] && Answer(s).result.assets == []
    ensures |SequentialResult(cfg).files| + |SequentialResult(cfg).assets| == 1
  {
    var sends, s1 := SingleSent(cfg, e);
    var drops, s2 := SingleDropped(cfg, s1);
    var exits, s3 := ExitAll(cfg, s2, 1);
    var s4 := Apply(cfg, s3, CloseProcessed);
    s := Apply(cfg, s4, Finish);
    RunsCompose(cfg, Init(cfg), sends, s1, drops, s2);
    RunsCompose(cfg, Init(cfg), sends + drops, s2, exits, s3);
    RunsExtend(cfg, Init(cfg), sends + drops + exits, s3, CloseProcessed);
    RunsExtend(cfg, Init(cfg), sends + drops + exits + [CloseProcessed], s4, Finish);
    steps := sends + drops + exits + [CloseProcessed] + [Finish];
    SingleSnapshot(cfg, e);
  }

  /** The driver's callback meets the cancelled context and the driver still returns nil. */
  lemma SingleSwallowed(cfg: Config, e: Entry) returns (steps: seq<Step>, s: State)
    requires cfg.Valid() && cfg.batches == [Batch([], [e], false)]
    ensures Runs(cfg, Init(cfg), steps, s)
    ensures s == Init(cfg).(todo := [], current := [e], cancelled := true, producer := JobsClosed(false),
                            swallowed := true)
  {
    var s0 := Init(cfg);
    var s1 := Apply(cfg, s0, NextBatch);
    assert s1 == s0.(todo := [], current := [e]);
    var s2 := s1.(cancelled := true);
    var s3 := s2.(producer := Returned(false), swallowed := true);
    s := s3.(producer := JobsClosed(false));
    RunsCons(cfg, s3, CloseJobs, [], s);
    RunsCons(cfg, s2, CallbackCancelled(false), [CloseJobs] + [], s);
    RunsCons(cfg, s1, Cancel, [CallbackCancelled(false)] + ([CloseJobs] + []), s);
    RunsCons(cfg, s0, NextBatch, [Cancel] + ([CallbackCancelled(false)] + ([CloseJobs] + [])), s);
    steps := [NextBatch] + ([Cancel] + ([CallbackCancelled(false)] + ([CloseJobs] + [])));
  }

  /**
   A driver that swallows the cancellation makes the scan report success, not partial, with a file missing, although
   no worker gave anything up: both conditions of `CompleteIff` are needed.
   */
  lemma SwallowedCancelLosesItem(cfg: Config, e: Entry) returns (steps: seq<Step>, s: State)
    requires cfg.Valid() && cfg.batches == [Batch([], [e], false)] && cfg.panics == {}
    requires Project(cfg.rules, e).FileItem?
    ensures Runs(cfg, Init(cfg), steps, s) && s.finished && s.producer == ProcessedClosed(false)
    ensures s.dropped == multiset{} && Answer(s).StreamOk? && !Answer(s).result.partial
    ensures Answer(s).result.files == [] && Answer(s).result.assets == []
    ensures |SequentialResult(cfg).files| + |SequentialResult(cfg).assets| == 1
  {
    var swallows, s1 := SingleSwallowed(cfg, e);
    var exits, s2 := ExitAll(cfg, s1, 0);
    var s3 := Apply(cfg, s2, CloseProcessed);
    s := Apply(cfg, s3, Finish);
    RunsCompose(cfg, Init(cfg), swallows, s1, exits, s2);
    RunsExtend(cfg, Init(cfg), swallows + exits, s2, CloseProcessed);
    RunsExtend(cfg, Init(cfg), swallows + exits + [CloseProcessed], s3, Finish);
    steps := swallows + exits + [CloseProcessed] + [Finish];
    SingleSnapshot(cfg, e);
  }

  lemma SingleSnapshot(cfg: Config, e: Entry)
    requires cfg.batches == [Batch([], [e], false)] && cfg.panics == {} && Project(cfg.rules, e).FileItem?
    ensures |SequentialResult(cfg).files| + |SequentialResult(cfg).assets| == 1
  {
    var b := cfg.batches[0];
    assert cfg.batches[1..] == [];
    assert AllEntries(cfg.batches[1..]) == [];
    assert Stream(cfg) == b.entries + [] == [e];
    FoldNext(Outcomes(cfg), 0);
    assert Outcomes(cfg)[..0] == [] && Outcomes(cfg)[..1] == Outcomes(cfg);
    var acc := Fold(Outcomes(cfg));
    SortedResultCounts(Snapshot(BulkTree(cfg.batches), acc, acc.Accepted() >= MAX_ENTRIES));
  }
}
