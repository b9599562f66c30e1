/**
 Publication of the credential key file by any number of concurrent processes. Names and contents are
 kept apart: the key file is a link to an inode, and a process publishes by linking its temporary inode.
 */
module KeyFile {
  import opened Common
  import opened Text
  import opened Base64

  const KEY_SIZE: nat := 32

  type KeyBytes = seq<Byte>

  /** decodeKey */
  function DecodeKey(value: string): (r: Option<KeyBytes>)
    ensures r.Some? ==> |r.value| == KEY_SIZE
  {
    var trimmed := TrimSpace(value);
    var raw := DecodeRaw(trimmed);
    var key := if raw.Some? then raw else DecodePadded(trimmed);
    if key.Some? && |key.value| == KEY_SIZE then key else None
  }

  /** What a process writes into its temporary file. */
  function FileText(key: KeyBytes): string { Encode(key) + "\n" }

  /** The written text decodes to the generated key. */
  lemma KeyRoundTrip(key: KeyBytes)
    requires |key| == KEY_SIZE
    ensures DecodeKey(FileText(key)) == Some(key)
  {
    var text, encoded := FileText(key), Encode(key);
    assert |Split6(key)| >= 4 by { ThreeKept(key); }
    CharRoundTrip(Split6(key)[0]);
    CharRoundTrip(Split6(key)[|encoded| - 1]);
    assert text[..|text| - 1] == encoded && text[|text| - 1] == '\n';
    assert TrimRight(text) == TrimRight(encoded) == encoded;
    assert TrimSpace(text) == encoded;
    DecodeEncode(key);
  }

  lemma EncodingEnds(key: KeyBytes)
    requires |key| == KEY_SIZE
    ensures |Encode(key)| > 0 && !IsSpace(Encode(key)[0]) && !IsSpace(Encode(key)[|Encode(key)| - 1])
  {
    SplitLength(key);
    CharRoundTrip(Split6(key)[0]);
    CharRoundTrip(Split6(key)[|Encode(key)| - 1]);
  }

  /** A key is read back however it was written: padded or not, with any white space around it. */
  lemma AnyWritingDecodes(key: KeyBytes, before: string, behind: string)
    requires |key| == KEY_SIZE
    requires forall i :: 0 <= i < |before| ==> IsSpace(before[i])
    requires forall i :: 0 <= i < |behind| ==> IsSpace(behind[i])
    ensures DecodeKey(before + Encode(key) + behind) == Some(key)
    ensures DecodeKey(before + EncodePadded(key) + behind) == Some(key)
  {
    EncodingEnds(key);
    TrimAround(before, Encode(key), behind);
    DecodeEncode(key);
    var padded := EncodePadded(key);
    assert padded == Encode(key) + "=" && padded[|padded| - 1] == '=' && padded[0] == Encode(key)[0];
    TrimAround(before, padded, behind);
    RawOfPadded(key);
    DecodeEncodePadded(key);
  }

  // ---- Processes and steps ------------------------------------------------------------------

  /** Where a process stands in loadKey; `inode` is its temporary file. */
  datatype Process =
    | Started
    | Absent
    | Generated(key: KeyBytes)
    | Writing(key: KeyBytes, inode: nat, written: nat)
    | Ready(key: KeyBytes, inode: nat)
    | Published(key: KeyBytes)
    | Beaten
    | Returned(key: KeyBytes)
    | Stopped

  datatype State = State(inodes: map<nat, string>, keyFile: Option<nat>, processes: map<nat, Process>)

  datatype Step =
    | Spawn(p: nat)
    | ReadKey(p: nat)
    | Generate(p: nat, key: KeyBytes)
    | CreateTemp(p: nat, inode: nat)
    | WriteMore(p: nat, upTo: nat)
    | CloseTemp(p: nat)
    | Link(p: nat)
    | ReadBeaten(p: nat)
    | Return(p: nat)
    | Stop(p: nat)

  predicate At(s: State, p: nat) { p in s.processes }

  predicate Enabled(s: State, step: Step) {
    match step
    case Spawn(p) => p !in s.processes
    case ReadKey(p) => At(s, p) && s.processes[p].Started? && (s.keyFile.Some? ==> s.keyFile.value in s.inodes)
    case Generate(p, key) => At(s, p) && s.processes[p].Absent? && |key| == KEY_SIZE
    case CreateTemp(p, inode) => At(s, p) && s.processes[p].Generated? && inode !in s.inodes
    case WriteMore(p, upTo) =>
      At(s, p) && s.processes[p].Writing? && s.processes[p].written <= upTo <= |FileText(s.processes[p].key)|
    case CloseTemp(p) => At(s, p) && s.processes[p].Writing? && s.processes[p].written == |FileText(s.processes[p].key)|
    case Link(p) => At(s, p) && s.processes[p].Ready?
    case ReadBeaten(p) => At(s, p) && s.processes[p].Beaten? && s.keyFile.Some? && s.keyFile.value in s.inodes
    case Return(p) => At(s, p) && s.processes[p].Published?
    case Stop(p) => At(s, p)
  }

  /** The outcome of decoding what was read. */
  function Decoded(text: string): Process {
    var key := DecodeKey(text);
    if key.Some? then Returned(key.value) else Stopped
  }

  function Apply(s: State, step: Step): State
    requires Enabled(s, step)
  {
    match step
    case Spawn(p) => s.(processes := s.processes[p := Started])
    case ReadKey(p) =>
      s.(processes := s.processes[p := if s.keyFile.None? then Absent else Decoded(s.inodes[s.keyFile.value])])
    case Generate(p, key) => s.(processes := s.processes[p := Generated(key)])
    case CreateTemp(p, inode) =>
      s.(inodes := s.inodes[inode := ""], processes := s.processes[p := Writing(s.processes[p].key, inode, 0)])
    case WriteMore(p, upTo) =>
      var w := s.processes[p];
      s.(inodes := s.inodes[w.inode := FileText(w.key)[..upTo]], processes := s.processes[p := w.(written := upTo)])
    case CloseTemp(p) => s.(processes := s.processes[p := Ready(s.processes[p].key, s.processes[p].inode)])
    case Link(p) =>
      var w := s.processes[p];
      if s.keyFile.None? then s.(keyFile := Some(w.inode), processes := s.processes[p := Published(w.key)])
      else s.(processes := s.processes[p := Beaten])
    case ReadBeaten(p) => s.(processes := s.processes[p := Decoded(s.inodes[s.keyFile.value])])
    case Return(p) => s.(processes := s.processes[p := Returned(s.processes[p].key)])
    case Stop(p) => s.(processes := s.processes[p := Stopped])
  }

  ghost predicate Runs(s: State, steps: seq<Step>, t: State)
    decreases |steps|
  {
    if steps == [] then s == t
    else Enabled(s, steps[0]) && Runs(Apply(s, steps[0]), steps[1..], t)
  }

  // ---- The invariant ------------------------------------------------------------------------

  predicate Owns(p: Process, inode: nat) { (p.Writing? || p.Ready?) && p.inode == inode }

  /** The published text and the key it stands for. */
  predicate Holds(s: State, key: KeyBytes) {
    s.keyFile.Some? && s.keyFile.value in s.inodes && DecodeKey(s.inodes[s.keyFile.value]) == Some(key)
  }

  predicate GoodProcess(s: State, w: Process) {
    match w
    case Generated(key) => |key| == KEY_SIZE
    case Writing(key, inode, written) =>
      && |key| == KEY_SIZE && inode in s.inodes && written <= |FileText(key)|
      && s.inodes[inode] == FileText(key)[..written]
      && s.keyFile != Some(inode)
    case Ready(key, inode) =>
      |key| == KEY_SIZE && inode in s.inodes && s.inodes[inode] == FileText(key) && s.keyFile != Some(inode)
    case Published(key) => Holds(s, key)
    case Beaten => s.keyFile.Some?
    case Returned(key) => Holds(s, key)
    case _ => true
  }

  /** No two processes share a temporary inode, and none still writes the published one. */
  ghost predicate Inv(s: State) {
    && (s.keyFile.Some? ==> s.keyFile.value in s.inodes)
    && (forall p :: p in s.processes ==> GoodProcess(s, s.processes[p]))
    && (forall p, q, i :: p in s.processes && q in s.processes ==>
          Owns(s.processes[p], i) && Owns(s.processes[q], i) ==> p == q)
  }

  /** A published key file keeps its inode and its text. */
  predicate Keeps(s: State, t: State) {
    s.keyFile.Some? && s.keyFile.value in s.inodes ==>
      t.keyFile == s.keyFile && t.keyFile.value in t.inodes && t.inodes[t.keyFile.value] == s.inodes[s.keyFile.value]
  }

  lemma StepKeeps(s: State, step: Step)
    requires Inv(s) && Enabled(s, step)
    ensures Keeps(s, Apply(s, step))
  {
    if step.WriteMore? { assert GoodProcess(s, s.processes[step.p]); }
  }

  lemma OtherProcess(s: State, step: Step, q: nat)
    requires Inv(s) && Enabled(s, step) && q in s.processes && q != step.p
    ensures q in Apply(s, step).processes && Apply(s, step).processes[q] == s.processes[q]
    ensures GoodProcess(Apply(s, step), s.processes[q])
  {
    StepKeeps(s, step);
    assert GoodProcess(s, s.processes[q]);
    var w := s.processes[q];
    if w.Writing? || w.Ready? { assert Owns(w, w.inode); }
    if step.WriteMore? || step.Link? { assert Owns(s.processes[step.p], s.processes[step.p].inode); }
  }

  lemma OwnProcess(s: State, step: Step)
    requires Inv(s) && Enabled(s, step)
    ensures step.p in Apply(s, step).processes && GoodProcess(Apply(s, step), Apply(s, step).processes[step.p])
  {
    if step.p in s.processes { assert GoodProcess(s, s.processes[step.p]); }
    if step.Link? { KeyRoundTrip(s.processes[step.p].key); }
    if step.CloseTemp? {
      var text := FileText(s.processes[step.p].key);
      assert text[..|text|] == text;
    }
    StepKeeps(s, step);
  }

  lemma InvStep(s: State, step: Step)
    requires Inv(s) && Enabled(s, step)
    ensures Inv(Apply(s, step))
  {
    var t := Apply(s, step);
    StepKeeps(s, step);
    forall p | p in t.processes ensures GoodProcess(t, t.processes[p]) {
      if p == step.p { OwnProcess(s, step); } else { OtherProcess(s, step, p); }
    }
    OwnProcess(s, step);
    forall p, q, i | p in t.processes && q in t.processes && Owns(t.processes[p], i) && Owns(t.processes[q], i)
      ensures p == q
    {
      if p != q { InodesApart(s, step, p, q, i); }
    }
  }

  lemma InodesApart(s: State, step: Step, p: nat, q: nat, i: nat)
    requires Inv(s) && Enabled(s, step) && p != q
    requires var t := Apply(s, step); p in t.processes && q in t.processes
    ensures var t := Apply(s, step); !(Owns(t.processes[p], i) && Owns(t.processes[q], i))
  {
    if step.CreateTemp? {
      if p in s.processes { assert GoodProcess(s, s.processes[p]); }
      if q in s.processes { assert GoodProcess(s, s.processes[q]); }
    }
  }

  /** Over every interleaving, crashes at any step included. */
  lemma {:induction false} RunInv(s: State, steps: seq<Step>, t: State)
    requires Inv(s) && Runs(s, steps, t)
    ensures Inv(t) && Keeps(s, t)
    decreases |steps|
  {
    if steps == [] {
    } else {
      InvStep(s, steps[0]);
      StepKeeps(s, steps[0]);
      RunInv(Apply(s, steps[0]), steps[1..], t);
    }
  }

  /** A start without processes: the key file is absent or holds any text. */
  ghost predicate Initial(s: State) {
    s.processes == map[] && (s.keyFile.Some? ==> s.keyFile.value in s.inodes)
  }

  /** All processes that succeed through the key file return the same key, the one the file decodes to. */
  lemma OneKey(s: State, steps: seq<Step>, t: State, p: nat, q: nat)
    requires Initial(s) && Runs(s, steps, t)
    requires p in t.processes && q in t.processes && t.processes[p].Returned? && t.processes[q].Returned?
    ensures t.processes[p].key == t.processes[q].key && Holds(t, t.processes[p].key)
  {
    RunInv(s, steps, t);
    assert GoodProcess(t, t.processes[p]) && GoodProcess(t, t.processes[q]);
  }

  /** Once present, the key file never changes again. */
  lemma KeyFileStays(s: State, before: seq<Step>, m: State, after: seq<Step>, t: State)
    requires Initial(s) && Runs(s, before, m) && Runs(m, after, t) && m.keyFile.Some?
    ensures m.keyFile.value in m.inodes && t.keyFile == m.keyFile && t.keyFile.value in t.inodes
    ensures t.inodes[t.keyFile.value] == m.inodes[m.keyFile.value]
  {
    RunInv(s, before, m);
    RunInv(m, after, t);
  }

  // ---- A key file created by this protocol is never truncated -------------------------------

  ghost predicate Genuine(s: State) {
    s.keyFile.Some? ==>
      && s.keyFile.value in s.inodes
      && exists key: KeyBytes :: |key| == KEY_SIZE && s.inodes[s.keyFile.value] == FileText(key)
  }

  lemma GenuineStep(s: State, step: Step)
    requires Inv(s) && Genuine(s) && Enabled(s, step)
    ensures Genuine(Apply(s, step))
  {
    StepKeeps(s, step);
    if step.Link? && s.keyFile.None? { assert GoodProcess(s, s.processes[step.p]); }
  }

  lemma {:induction false} RunGenuine(s: State, steps: seq<Step>, t: State)
    requires Inv(s) && Genuine(s) && Runs(s, steps, t)
    ensures Genuine(t)
    decreases |steps|
  {
    if steps == [] {
    } else {
      InvStep(s, steps[0]);
      GenuineStep(s, steps[0]);
      RunGenuine(Apply(s, steps[0]), steps[1..], t);
    }
  }

  /** Starting without a key file, whatever is published decodes, whichever process died where. */
  lemma PublishedDecodes(steps: seq<Step>, t: State)
    requires Runs(State(map[], None, map[]), steps, t) && t.keyFile.Some?
    ensures t.keyFile.value in t.inodes && DecodeKey(t.inodes[t.keyFile.value]).Some?
  {
    RunGenuine(State(map[], None, map[]), steps, t);
    var key: KeyBytes :| |key| == KEY_SIZE && t.inodes[t.keyFile.value] == FileText(key);
    KeyRoundTrip(key);
  }
}
