/** The byte-budgeted event stream of a site search, shared under one mutex by the search and a heartbeat. */
module SearchStream {
  import opened Common

  const EVENT_BYTES: nat := 393216
  const STREAM_BYTES: nat := 12582912
  const INTERIM_BYTES: nat := 8388608
  const KEEP_ALIVE := ": keep-alive\n\n"

  datatype Progress = Progress(completed: int, total: int, running: int, pending: int)

  datatype EventName = SiteEvent | ProgressEvent | DoneEvent | ErrorEvent

  datatype Value = Group(complete: Option<bool>) | ProgressValue(progress: Progress) | OtherValue

  /** What the writer does with a frame: bytes taken, whether it reports an error, whether the flush succeeds. */
  datatype Io = Io(taken: nat, err: bool, flushed: bool)

  /**
   The guarded fields, and the bytes sent so far as whole frames and a cut last one. `finals` lists the
   whole frames that were sent as final.
   */
  datatype Stream = Stream(
    version: int, started: bool, bytes: nat, interimBytes: nat, failed: bool, cancelled: bool, last: Progress,
    whole: seq<string>, cut: string, finals: seq<string>)

  function Fresh(version: int): Stream {
    Stream(version, false, 0, 0, false, false, Progress(0, 0, 0, 0), [], "", [])
  }

  function Concat(parts: seq<string>): string {
    if parts == [] then "" else Concat(parts[..|parts| - 1]) + parts[|parts| - 1]
  }

  function Output(s: Stream): string { Concat(s.whole) + s.cut }

  function Length(parts: seq<string>): nat {
    if parts == [] then 0 else Length(parts[..|parts| - 1]) + |parts[|parts| - 1]|
  }

  // ---- Operations ---------------------------------------------------------------------------

  function Flushed(s: Stream, flushed: bool): Stream {
    if flushed then s else s.(failed := true, cancelled := true)
  }

  function Started(s: Stream, flushed: bool): Stream {
    if s.started || s.failed then s else Flushed(s.(started := true), flushed)
  }

  predicate Refuses(s: Stream, frame: string, final: bool) {
    || !s.started || s.failed || s.cancelled
    || (s.version == 2 && !final && s.interimBytes + |frame| > INTERIM_BYTES)
  }

  predicate Exceeds(s: Stream, frame: string) {
    s.version == 2 && (|frame| > EVENT_BYTES || s.bytes + |frame| > STREAM_BYTES)
  }

  function WithFinal(finals: seq<string>, frame: string, final: bool): seq<string> {
    if final then finals + [frame] else finals
  }

  /** The frame reached the writer, which took the first n bytes. */
  function Sent(s: Stream, frame: string, final: bool, n: nat): Stream
    requires n <= |frame|
  {
    var counted := s.(bytes := s.bytes + n, interimBytes := s.interimBytes + if final then 0 else n);
    if n < |frame| then counted.(cut := frame[..n])
    else counted.(whole := s.whole + [frame], finals := WithFinal(s.finals, frame, final))
  }

  /** writeLocked */
  function Written(s: Stream, frame: string, final: bool, io: Io): Stream {
    if Refuses(s, frame, final) then s
    else if Exceeds(s, frame) then s.(failed := true, cancelled := true)
    else
      var n := if io.taken < |frame| then io.taken else |frame|;
      var sent := Sent(s, frame, final, n);
      if io.err || n != |frame| then sent.(failed := true, cancelled := true) else Flushed(sent, io.flushed)
  }

  predicate IsFinal(event: EventName, value: Value) {
    match value
    case Group(complete) => complete == None || complete == Some(true)
    case ProgressValue(p) =>
      if event.ProgressEvent? then p.completed == p.total && p.running == 0 && p.pending == 0
      else event.DoneEvent? || event.ErrorEvent?
    case OtherValue => event.DoneEvent? || event.ErrorEvent?
  }

  /** A mutex-guarded call: `frame` is None when the value cannot be encoded, `noted` is a new progress snapshot. */
  datatype Op =
    | Start(flushed: bool)
    | Offer(frame: Option<string>, final: bool, noted: Option<Progress>, io: Io)
    | ContextDone

  /** event */
  function EventOp(event: EventName, value: Value, frame: Option<string>, io: Io): Op {
    Offer(frame, IsFinal(event, value),
          if value.ProgressValue? && event.ProgressEvent? then Some(value.progress) else None, io)
  }

  /** heartbeat */
  function HeartbeatOp(io: Io): Op { Offer(Some(KEEP_ALIVE), true, None, io) }

  function Noted(s: Stream, noted: Option<Progress>): Stream {
    if noted.Some? then s.(last := noted.value) else s
  }

  function Step(s: Stream, op: Op): Stream {
    match op
    case Start(flushed) => Started(s, flushed)
    case Offer(frame, final, noted, io) =>
      if frame.None? then Noted(s, noted).(failed := true, cancelled := true)
      else Written(Noted(s, noted), frame.value, final, io)
    case ContextDone => s.(cancelled := true)
  }

  function Run(s: Stream, ops: seq<Op>): Stream
    decreases |ops|
  {
    if ops == [] then s else Run(Step(s, ops[0]), ops[1..])
  }

  // ---- Budgets and framing over every run ---------------------------------------------------

  /** Counters match the output, limits hold, and a cut frame is the last thing ever sent. */
  ghost predicate Inv(s: Stream) {
    && s.bytes == Length(s.whole) + |s.cut|
    && (s.cut != "" ==> s.failed)
    && (s.version == 2 ==> s.bytes <= STREAM_BYTES && s.interimBytes <= INTERIM_BYTES)
    && Length(s.finals) + s.interimBytes <= s.bytes
    && (s.cut == "" ==> Length(s.finals) + s.interimBytes == s.bytes)
  }

  lemma LengthNext(parts: seq<string>, part: string)
    ensures Length(parts + [part]) == Length(parts) + |part|
  {
    assert (parts + [part])[..|parts|] == parts;
  }

  lemma {:induction false} ConcatLength(parts: seq<string>)
    ensures |Concat(parts)| == Length(parts)
  {
    if parts == [] {
    } else {
      ConcatLength(parts[..|parts| - 1]);
    }
  }

  lemma FailedInv(s: Stream)
    requires Inv(s)
    ensures Inv(s.(failed := true, cancelled := true))
  {
  }

  /** The writer took a part of the frame only. */
  lemma ShortInv(s: Stream, frame: string, final: bool, n: nat)
    requires Inv(s) && s.cut == "" && n < |frame| && !Refuses(s, frame, final) && !Exceeds(s, frame)
    ensures Inv(Sent(s, frame, final, n).(failed := true, cancelled := true))
  {
  }

  lemma WholeInv(s: Stream, frame: string, final: bool)
    requires Inv(s) && s.cut == "" && !Refuses(s, frame, final) && !Exceeds(s, frame)
    ensures Inv(Sent(s, frame, final, |frame|))
  {
    LengthNext(s.whole, frame);
    LengthNext(s.finals, frame);
  }

  lemma WrittenInv(s: Stream, frame: string, final: bool, io: Io)
    requires Inv(s)
    ensures Inv(Written(s, frame, final, io))
  {
    if Refuses(s, frame, final) {
    } else if Exceeds(s, frame) {
      FailedInv(s);
    } else if io.taken < |frame| {
      ShortInv(s, frame, final, io.taken);
    } else {
      WholeInv(s, frame, final);
      FailedInv(Sent(s, frame, final, |frame|));
    }
  }

  lemma NotedInv(s: Stream, noted: Option<Progress>)
    requires Inv(s)
    ensures Inv(Noted(s, noted)) && Inv(Noted(s, noted).(failed := true, cancelled := true))
  {
  }

  lemma StepInv(s: Stream, op: Op)
    requires Inv(s)
    ensures Inv(Step(s, op))
  {
    if op.Offer? {
      NotedInv(s, op.noted);
      if op.frame.Some? { WrittenInv(Noted(s, op.noted), op.frame.value, op.final, op.io); }
    }
  }

  /** For every mutex order of site, progress, heartbeat and failing frames the counters stay within their limits. */
  lemma {:induction false} RunInv(s: Stream, ops: seq<Op>)
    requires Inv(s)
    ensures Inv(Run(s, ops))
    decreases |ops|
  {
    if ops == [] {
    } else {
      StepInv(s, ops[0]);
      RunInv(Step(s, ops[0]), ops[1..]);
    }
  }

  /** What the invariant says of the bytes on the wire. */
  lemma BudgetsHold(s: Stream)
    requires Inv(s)
    ensures |Output(s)| == s.bytes
    ensures s.version == 2 ==> |Output(s)| <= STREAM_BYTES && s.interimBytes <= INTERIM_BYTES
    ensures !s.failed ==> Output(s) == Concat(s.whole)
  {
    ConcatLength(s.whole);
    if s.cut == "" { assert Concat(s.whole) + "" == Concat(s.whole); }
  }

  lemma {:induction false} VersionStays(s: Stream, ops: seq<Op>)
    ensures Run(s, ops).version == s.version
    decreases |ops|
  {
    if ops == [] {
    } else {
      VersionStays(Step(s, ops[0]), ops[1..]);
    }
  }

  /** Whatever the mutex order, the limits hold on the wire, and only whole frames precede a failure. */
  lemma RunBudgets(s: Stream, ops: seq<Op>)
    requires Inv(s)
    ensures var t := Run(s, ops);
            && |Output(t)| == t.bytes && (!t.failed ==> Output(t) == Concat(t.whole))
            && (s.version == 2 ==> |Output(t)| <= STREAM_BYTES && t.interimBytes <= INTERIM_BYTES)
  {
    RunInv(s, ops);
    VersionStays(s, ops);
    BudgetsHold(Run(s, ops));
  }

  /** After the first failure, or once the request is over, not one byte more is sent. */
  lemma {:induction false} NothingAfterFailure(s: Stream, ops: seq<Op>)
    requires s.failed || s.cancelled
    ensures Output(Run(s, ops)) == Output(s) && Run(s, ops).whole == s.whole && (s.failed ==> Run(s, ops).failed)
    decreases |ops|
  {
    if ops == [] {
    } else {
      NothingAfterFailure(Step(s, ops[0]), ops[1..]);
    }
  }

  lemma WrittenGrows(s: Stream, frame: string, final: bool, io: Io)
    ensures s.whole <= Written(s, frame, final, io).whole && s.finals <= Written(s, frame, final, io).finals
  {
  }

  lemma StepGrows(s: Stream, op: Op)
    ensures s.whole <= Step(s, op).whole && s.finals <= Step(s, op).finals
  {
    if op.Offer? && op.frame.Some? { WrittenGrows(Noted(s, op.noted), op.frame.value, op.final, op.io); }
  }

  /** Frames already sent are never taken back or reordered. */
  lemma {:induction false} OutputGrows(s: Stream, ops: seq<Op>)
    ensures s.whole <= Run(s, ops).whole && s.finals <= Run(s, ops).finals
    decreases |ops|
  {
    if ops == [] {
    } else {
      StepGrows(s, ops[0]);
      OutputGrows(Step(s, ops[0]), ops[1..]);
      PrefixTransitive(s.whole, Step(s, ops[0]).whole, Run(s, ops).whole);
      PrefixTransitive(s.finals, Step(s, ops[0]).finals, Run(s, ops).finals);
    }
  }

  lemma PrefixTransitive(a: seq<string>, b: seq<string>, c: seq<string>)
    requires a <= b <= c
    ensures a <= c
  {
  }

  // ---- What becomes of one frame ------------------------------------------------------------

  /**
   When the peer takes all of it, a frame offered to an open stream is delivered whole on version 1, and on version 2
   as long as it is final or within the interim budget and neither it nor the stream exceeds its limit. An interim
   frame beyond its budget is dropped and the stream lives on; a frame beyond the limits ends the stream. A stream that
   has not started, has failed or was cancelled sends nothing.
   */
  lemma FrameMeaning(s: Stream, frame: string, final: bool, noted: Option<Progress>, io: Io)
    requires |frame| <= io.taken && !io.err && io.flushed
    ensures var t := Step(s, Offer(Some(frame), final, noted, io));
            var open := s.started && !s.failed && !s.cancelled;
            var skipped := s.version == 2 && !final && s.interimBytes + |frame| > 8 * 1024 * 1024;
            var tooLong := s.version == 2 && (|frame| > 384 * 1024 || s.bytes + |frame| > 12 * 1024 * 1024);
            && t.whole == (if open && !skipped && !tooLong then s.whole + [frame] else s.whole) && t.cut == s.cut
            && (t.failed <==> s.failed || (open && !skipped && tooLong))
            && (t.cancelled <==> s.cancelled || (open && !skipped && tooLong))
            && t.bytes - s.bytes == (if open && !skipped && !tooLong then |frame| else 0)
            && t.interimBytes - s.interimBytes == (if open && !skipped && !tooLong && !final then |frame| else 0)
  {
  }

  /** Final are a group unless it says it is incomplete, a progress event when nothing is left, and an ending event. */
  lemma FinalMeaning(event: EventName, value: Value, frame: Option<string>, io: Io)
    ensures EventOp(event, value, frame, io).final <==>
            if value.Group? then value.complete.Some? ==> value.complete.value
            else if value.ProgressValue? && event == ProgressEvent then
              value.progress.completed == value.progress.total && value.progress.running == value.progress.pending == 0
            else event == DoneEvent || event == ErrorEvent
  {
  }

  /** The closing event reports the progress that the last progress event carried, delivered or not. */
  lemma EventNotes(s: Stream, event: EventName, value: Value, frame: Option<string>, io: Io)
    ensures Step(s, EventOp(event, value, frame, io)).last ==
            if event == ProgressEvent && value.ProgressValue? then value.progress else s.last
  {
  }

  // ---- The space reserved for final frames --------------------------------------------------

  /** The final frame an operation offers, if any. */
  function FinalOf(op: Op): seq<string> {
    if op.Offer? && op.frame.Some? && op.final then [op.frame.value] else []
  }

  /** Final frames offered by a run, heartbeats included. */
  function Finals(ops: seq<Op>): seq<string>
    decreases |ops|
  {
    if ops == [] then []
    else FinalOf(ops[0]) + Finals(ops[1..])
  }

  /** The peer keeps reading, values encode, no single frame is oversized and the request stays alive. */
  predicate Healthy(op: Op) {
    match op
    case Start(flushed) => flushed
    case Offer(frame, _, _, io) =>
      frame.Some? && |frame.value| <= EVENT_BYTES && |frame.value| <= io.taken && !io.err && io.flushed
    case ContextDone => false
  }

  lemma HealthyStep(s: Stream, op: Op)
    requires Inv(s) && s.version == 2 && s.started && !s.failed && !s.cancelled && Healthy(op)
    requires Length(s.finals) <= STREAM_BYTES - INTERIM_BYTES
    requires op.Offer? && op.final ==> Length(s.finals) + |op.frame.value| <= STREAM_BYTES - INTERIM_BYTES
    ensures var t := Step(s, op);
            && t.started && !t.failed && !t.cancelled && t.version == 2
            && t.finals == if op.Offer? then WithFinal(s.finals, op.frame.value, op.final) else s.finals
  {
  }

  lemma {:induction false} LengthConcat(a: seq<string>, b: seq<string>)
    ensures Length(a + b) == Length(a) + Length(b)
  {
    if b == [] {
      assert a + b == a;
    } else {
      LengthConcat(a, b[..|b| - 1]);
      assert (a + b)[..|a + b| - 1] == a + b[..|b| - 1];
    }
  }

  lemma HealthyFinals(s: Stream, op: Op)
    requires Inv(s) && s.version == 2 && s.started && !s.failed && !s.cancelled && Healthy(op)
    requires Length(s.finals) + Length(FinalOf(op)) <= STREAM_BYTES - INTERIM_BYTES
    ensures var t := Step(s, op);
            && t.started && !t.failed && !t.cancelled && t.version == 2
            && t.finals == s.finals + FinalOf(op) && Length(t.finals) == Length(s.finals) + Length(FinalOf(op))
  {
    LengthConcat(s.finals, FinalOf(op));
    if FinalOf(op) != [] {
      LengthNext([], FinalOf(op)[0]);
      assert [] + FinalOf(op) == FinalOf(op);
    } else {
      assert s.finals + [] == s.finals;
    }
    HealthyStep(s, op);
  }

  lemma FinalsSplit(sent: seq<string>, ops: seq<Op>)
    requires ops != []
    ensures Length(Finals(ops)) == Length(FinalOf(ops[0])) + Length(Finals(ops[1..]))
    ensures (sent + FinalOf(ops[0])) + Finals(ops[1..]) == sent + Finals(ops)
  {
    LengthConcat(FinalOf(ops[0]), Finals(ops[1..]));
  }

  /** A version-2 stream that is open for more. */
  ghost predicate Open(s: Stream) { Inv(s) && s.version == 2 && s.started && !s.failed && !s.cancelled }

  lemma OpenStep(s: Stream, op: Op)
    requires Open(s) && Healthy(op) && Length(s.finals) + Length(FinalOf(op)) <= STREAM_BYTES - INTERIM_BYTES
    ensures var t := Step(s, op);
            Open(t) && t.finals == s.finals + FinalOf(op) && Length(t.finals) == Length(s.finals) + Length(FinalOf(op))
  {
    HealthyFinals(s, op);
    StepInv(s, op);
  }

  /**
   However many interim frames are offered and in whatever order, every final frame and every heartbeat of a healthy
   version-2 run is delivered, as long as those alone fit into the reserved four megabytes.
   */
  lemma {:induction false} FinalsAreDelivered(s: Stream, ops: seq<Op>)
    requires Open(s) && forall i :: 0 <= i < |ops| ==> Healthy(ops[i])
    requires Length(s.finals) + Length(Finals(ops)) <= STREAM_BYTES - INTERIM_BYTES
    ensures var t := Run(s, ops); !t.failed && t.finals == s.finals + Finals(ops)
    decreases |ops|
  {
    if ops == [] {
      assert s.finals + [] == s.finals;
    } else {
      FinalsSplit(s.finals, ops);
      OpenStep(s, ops[0]);
      FinalsAreDelivered(Step(s, ops[0]), ops[1..]);
    }
  }

  /**
   Starting sends no frame. It opens a fresh stream when the client is reached and kills it when not, and does nothing
   to a stream that has started or failed.
   */
  lemma StartOpens(s: Stream, flushed: bool)
    requires Inv(s) && s.version == 2
    ensures var t := Step(s, Start(flushed));
            && (s.started || s.failed ==> t == s)
            && (!s.started && !s.failed && flushed && !s.cancelled ==> Open(t))
            && (!s.started && !s.failed && !flushed ==> t.started && t.failed && t.cancelled)
            && t.whole == s.whole && t.finals == s.finals && Output(t) == Output(s)
  {
  }

  // ---- The stream as the handlers use it ----------------------------------------------------

  class SiteSearchStream {
    const version: int
    var started: bool
    var bytes: nat
    var interimBytes: nat
    var failed: bool
    var cancelled: bool
    var last: Progress
    ghost var whole: seq<string>
    ghost var cut: string
    ghost var finals: seq<string>

    ghost function Model(): Stream
      reads this
    {
      Stream(version, started, bytes, interimBytes, failed, cancelled, last, whole, cut, finals)
    }

    constructor (version: int)
      ensures Model() == Fresh(version) && Inv(Model())
    {
      this.version := version;
      started, bytes, interimBytes, failed, cancelled, last := false, 0, 0, false, false, Progress(0, 0, 0, 0);
      whole, cut, finals := [], "", [];
    }

    method Start(flushed: bool)
      modifies this
      ensures Model() == Started(old(Model()), flushed)
      ensures Inv(old(Model())) ==> Inv(Model())
    {
      if started || failed { return; }
      started := true;
      if !flushed { failed, cancelled := true, true; }
    }

    method WriteLocked(frame: string, final: bool, io: Io)
      modifies this
      ensures Model() == Written(old(Model()), frame, final, io)
      ensures Inv(old(Model())) ==> Inv(Model())
    {
      if Inv(Model()) { WrittenInv(Model(), frame, final, io); }
      if !started || failed || cancelled { return; }
      if version == 2 {
        if !final && interimBytes + |frame| > INTERIM_BYTES { return; }
        if |frame| > EVENT_BYTES || bytes + |frame| > STREAM_BYTES {
          failed, cancelled := true, true;
          return;
        }
      }
      var n := SendFrame(frame, final, io.taken);
      if io.err || n != |frame| || !io.flushed { failed, cancelled := true, true; }
    }

    /** The write itself and its accounting. */
    method SendFrame(frame: string, final: bool, taken: nat) returns (n: nat)
      modifies this
      ensures n == (if taken < |frame| then taken else |frame|) && Model() == Sent(old(Model()), frame, final, n)
    {
      n := if taken < |frame| then taken else |frame|;
      if n < |frame| {
        cut := frame[..n];
      } else {
        whole := whole + [frame];
        finals := WithFinal(finals, frame, final);
      }
      bytes := bytes + n;
      if !final { interimBytes := interimBytes + n; }
    }

    /** The frame of an event or of a heartbeat, under the mutex. */
    method OfferFrame(frame: Option<string>, final: bool, noted: Option<Progress>, io: Io)
      modifies this
      ensures Model() == Step(old(Model()), Offer(frame, final, noted, io))
      ensures Inv(old(Model())) ==> Inv(Model())
    {
      if Inv(Model()) { StepInv(Model(), Offer(frame, final, noted, io)); }
      if noted.Some? { last := noted.value; }
      if frame.None? {
        failed, cancelled := true, true;
        return;
      }
      WriteLocked(frame.value, final, io);
    }

    method Event(event: EventName, value: Value, frame: Option<string>, io: Io)
      modifies this
      ensures Model() == Step(old(Model()), EventOp(event, value, frame, io))
      ensures Inv(old(Model())) ==> Inv(Model())
    {
      var noted := if value.ProgressValue? && event.ProgressEvent? then Some(value.progress) else None;
      OfferFrame(frame, IsFinal(event, value), noted, io);
    }

    method Heartbeat(io: Io)
      modifies this
      ensures Model() == Step(old(Model()), HeartbeatOp(io))
      ensures Inv(old(Model())) ==> Inv(Model())
    {
      OfferFrame(Some(KEEP_ALIVE), true, None, io);
    }

    /** What other goroutines do to the stream while this one does not hold the mutex. */
    method Interlude(ops: seq<Op>)
      modifies this
      ensures Model() == Run(old(Model()), ops)
      ensures Inv(old(Model())) ==> Inv(Model())
    {
      if Inv(Model()) { RunInv(Model(), ops); }
      var i := 0;
      while i < |ops|
        invariant 0 <= i <= |ops| && Run(Model(), ops[i..]) == Run(old(Model()), ops)
      {
        assert ops[i..][1..] == ops[i + 1..];
        match ops[i] {
          case Start(flushed) => Start(flushed);
          case Offer(frame, final, noted, io) => OfferFrame(frame, final, noted, io);
          case ContextDone => cancelled := true;
        }
        i := i + 1;
      }
    }

    /**
     finish: one closing event, or none when the stream is dead or never started with an error. It reads the fields
     under the mutex, looks at the request context without it, and takes it again for the event; `before` and `after`
     happen in between.
     */
    method Finish(err: bool, frame: Option<string>, io: Io, before: seq<Op>, after: seq<Op>) returns (restError: bool)
      modifies this
      ensures restError <==> err && !old(started) && !old(failed) && !Run(old(Model()), before).cancelled
      ensures var asked := Run(old(Model()), before);
              Model() ==
              if old(failed) || asked.cancelled then asked
              else if restError then Run(asked, after)
              else Step(Run(asked, after),
                        if err then EventOp(ErrorEvent, OtherValue, frame, io)
                        else EventOp(DoneEvent, ProgressValue(old(last)), frame, io))
      ensures Inv(old(Model())) ==> Inv(Model())
    {
      restError := false;
      var startedThen, failedThen, lastThen := started, failed, last;
      Interlude(before);
      if failedThen || cancelled { return; }
      Interlude(after);
      if err {
        if !startedThen { return true; }
        Event(ErrorEvent, OtherValue, frame, io);
        return;
      }
      Event(DoneEvent, ProgressValue(lastThen), frame, io);
    }
  }
}
