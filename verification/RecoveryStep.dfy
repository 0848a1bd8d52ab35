/**
  One bounded copy, verify and record step, driven through an attempt journal so that it can be
  interrupted anywhere and retried.
 */
module RecoveryStep {
  import opened Foundations
  import opened ChainRows
  import opened FragmentedRow
  import opened FragmentProgress
  import opened FragmentRollover
  import opened RawChunk

  /** What an attempt is bound to; a different binding is a different attempt. */
  datatype Binding = Binding(
    pin: string,
    cursor: Cursor,
    anchor: Cursor,
    evidence: string,
    extent: nat,
    window: nat,
    sourceId: string,
    seeds: seq<Input>)

  datatype Attempt = Attempt(binding: Binding, inputs: seq<Input>)

  /**
    The arguments of a call. `captured` is the source up to the target extent: the source may
    only be appended to, so every call sees these same bytes.
   */
  datatype Task = Task(
    ledger: Ledger,
    links: Doc<Link>,
    bindings: Doc<Binding>,
    journals: Doc<Attempt>,
    sourceId: string,
    captured: Bytes,
    pin: string,
    window: nat,
    limit: nat,
    linked: bool)

  /** What a call finds under its pin: the history, its cursor, the inputs it may reuse, and the attempt's key. */
  datatype Opened = Opened(history: History, cursor: Cursor, seeds: seq<Input>, key: string)

  predicate StepPolicyOk(t: Task) {
    t.ledger.path.ProgressFile? && IsHash(t.ledger.anchor.lastHash) && IsHash(t.ledger.evidence) && IsHash(t.pin)
    && |t.captured| == t.ledger.extent && t.ledger.anchor.offset < t.ledger.extent
    && 1 <= t.window <= MAX_WINDOW && 1 <= t.limit <= 256
  }

  function BindingOf(t: Task, cursor: Cursor, seeds: seq<Input>): Binding {
    Binding(t.pin, cursor, t.ledger.anchor, t.ledger.evidence, t.ledger.extent, t.window, t.sourceId, seeds)
  }

  function KeyOf(t: Task, cursor: Cursor, seeds: seq<Input>): string {
    t.ledger.codec.sha256(t.bindings.dump(BindingOf(t, cursor, seeds)))
  }

  /** The inputs a step starts with: the previous step's unread suffix, or for an empty child its link's. */
  function Seeds(h: History, cursor: Cursor, linkInputs: seq<Input>): seq<Input> {
    if h.steps == [] then linkInputs else Retained(h, cursor)
  }

  function LinkInputs(t: Task, d: Disk): Option<seq<Input>> {
    if t.linked then LoadRollover(t.ledger, t.links, d) else Some([])
  }

  /** None when the call raises before looking at the source. */
  function Open(t: Task, d: Disk): Option<Opened> {
    if !StepPolicyOk(t) then None
    else
      match ReadHistory(t.ledger, d, Some(t.pin))
      case None => None
      case Some(h) =>
        match (StateCursor(t.ledger, h), LinkInputs(t, d))
        case (Some(cursor), Some(linkInputs)) =>
          var seeds := Seeds(h, cursor, linkInputs);
          Some(Opened(h, cursor, seeds, KeyOf(t, cursor, seeds)))
        case _ => None
  }

  function Frontier(o: Opened, inputs: seq<Input>): nat {
    if inputs == [] then o.cursor.offset else inputs[|inputs| - 1].end
  }

  function WindowSize(t: Task, offset: nat): nat
    requires offset < |t.captured|
  {
    Min(t.window, |t.captured| - offset)
  }

  /** The one window that may follow these inputs. */
  function NextInput(t: Task, o: Opened, inputs: seq<Input>): (next: Input)
    requires Frontier(o, inputs) < |t.captured|
    ensures next.offset == Frontier(o, inputs) && next.end <= |t.captured|
    ensures next.name == StageFile(o.key, |inputs|)
  {
    var offset := Frontier(o, inputs);
    RangeInput(t.ledger.codec, t.captured, StageFile(o.key, |inputs|), offset, WindowSize(t, offset), |t.captured|)
  }

  function RangeOf(t: Task, r: Input): Bytes
    requires r.offset <= r.end <= |t.captured|
  {
    t.captured[r.offset..r.end]
  }

  /** The inputs past the seeds are windows this attempt would have named and sized itself. */
  predicate StagedOk(t: Task, o: Opened, inputs: seq<Input>) {
    |o.seeds| <= |inputs| && inputs[..|o.seeds|] == o.seeds
    && forall i :: |o.seeds| <= i < |inputs| ==> StagedInputOk(t, o, inputs, i)
  }

  predicate StagedInputOk(t: Task, o: Opened, inputs: seq<Input>, i: nat)
    requires i < |inputs|
  {
    var offset := Frontier(o, inputs[..i]);
    offset < |t.captured|
    && inputs[i].name == StageFile(o.key, i) && inputs[i].offset == offset
    && inputs[i].size == WindowSize(t, offset)
  }

  predicate AttemptOk(t: Task, o: Opened, inputs: seq<Input>) {
    |inputs| <= 2 && (inputs != [] ==> InputsOk(inputs, o.cursor, t.ledger.extent)) && StagedOk(t, o, inputs)
  }

  function Journal(o: Opened): Name {
    JournalFile(o.key)
  }

  /** The inputs the attempt's journal holds; None when it is absent or refused. */
  function JournalInputs(t: Task, d: Disk, o: Opened): Option<seq<Input>> {
    if Journal(o) in d && |d[Journal(o)]| <= MAX_METADATA then
      match t.journals.load(d[Journal(o)])
      case None => None
      case Some(a) =>
        if a.binding == BindingOf(t, o.cursor, o.seeds) && AttemptOk(t, o, a.inputs) then Some(a.inputs) else None
    else None
  }

  function WithJournal(t: Task, d: Disk, o: Opened, inputs: seq<Input>): Disk {
    d[Journal(o) := t.journals.dump(Attempt(BindingOf(t, o.cursor, o.seeds), inputs))]
  }

  predicate JournalFits(t: Task, o: Opened, inputs: seq<Input>) {
    |t.journals.dump(Attempt(BindingOf(t, o.cursor, o.seeds), inputs))| <= MAX_METADATA
  }

  function VerdictOn(t: Task, d: Disk, o: Opened, inputs: seq<Input>): Verdict {
    FragmentVerdict(t.ledger.codec, d, AsReceipts(inputs), o.cursor, t.limit)
  }

  /** One more window is wanted when there are no inputs yet, or one input or none of its rows complete and more source. */
  predicate WantsMore(t: Task, d: Disk, o: Opened, inputs: seq<Input>) {
    inputs == []
    || (VerdictOn(t, d, o, inputs) == NoCompleteRow && |inputs| < 2
        && inputs[|inputs| - 1].end != t.ledger.extent)
  }

  // ----- One uninterrupted call -----

  /**
    WindowRetained: nothing recorded because no row was complete; `exhausted` when two windows
    are already held. StepFailed: the call raised. StepStopped: it raised at a guard or in a file
    operation.
   */
  datatype StepResult =
    | StepRecorded(pin: string, next: Cursor)
    | WindowRetained(exhausted: bool)
    | StepNotRecorded(verdict: Verdict)
    | TipReached
    | StepFailed
    | StepStopped

  /** The call raised: it returned no result. */
  predicate Raised(r: StepResult) {
    r.StepFailed? || r.StepStopped?
  }

  /** A guard or a failing file operation stopped the call, or the verification it made. */
  predicate Cut(r: StepResult) {
    r.StepStopped? || r == StepNotRecorded(Blocked)
  }

  /** What a call returns, the disk it leaves and the source bytes it copied. */
  datatype Outcome = Outcome(result: StepResult, disk: Disk, copied: nat)

  function Finish(t: Task, d: Disk, inputs: seq<Input>, copied: nat): Outcome {
    var (r, d') := RecordSpec(t.ledger, d, AsReceipts(inputs), Some(t.pin), t.limit);
    Outcome(Reported(r, |inputs|), d', if r.Failed? then 0 else copied)
  }

  /** How a recording outcome is reported by the step. */
  function Reported(r: RecordResult, inputs: nat): StepResult {
    match r
    case Recorded(pin, next) => StepRecorded(pin, next)
    case NotRecorded(v) => if v == NoCompleteRow then WindowRetained(inputs == 2) else StepNotRecorded(v)
    case Failed => StepFailed
    case Interrupted => StepStopped
  }

  /** What an extension does once its window is on disk. */
  function Journaled(t: Task, d: Disk, o: Opened, inputs: seq<Input>, copied: nat): Outcome
    requires Frontier(o, inputs) < |t.captured|
  {
    var more := inputs + [NextInput(t, o, inputs)];
    if !JournalFits(t, o, more) then Outcome(StepFailed, d, 0)
    else Finish(t, WithJournal(t, d, o, more), more, copied)
  }

  function Extend(t: Task, d: Disk, o: Opened, inputs: seq<Input>): Outcome
    requires Frontier(o, inputs) < |t.captured|
  {
    var next := NextInput(t, o, inputs);
    if next.name in d && d[next.name] != RangeOf(t, next) then Outcome(StepFailed, d, 0)
    else
      Journaled(t, d[next.name := RangeOf(t, next)], o, inputs, if next.name in d then 0 else next.size)
  }

  function Continue(t: Task, d: Disk, o: Opened, inputs: seq<Input>): Outcome {
    if WantsMore(t, d, o, inputs) && Frontier(o, inputs) < |t.captured| then Extend(t, d, o, inputs)
    else Finish(t, d, inputs, 0)
  }

  function Advance(t: Task, d: Disk): Outcome {
    match Open(t, d)
    case None => Outcome(StepFailed, d, 0)
    case Some(o) =>
      if o.cursor.offset == t.ledger.extent then Outcome(TipReached, d, 0)
      else if |o.history.steps| >= MAX_STEPS
              || |t.bindings.dump(BindingOf(t, o.cursor, o.seeds))| > MAX_METADATA then Outcome(StepFailed, d, 0)
      else if Journal(o) !in d && !JournalFits(t, o, o.seeds) then Outcome(StepFailed, d, 0)
      else
        var d' := if Journal(o) in d then d else WithJournal(t, d, o, o.seeds);
        match StartInputs(t, d, o)
        case None => Outcome(StepFailed, d', 0)
        case Some(inputs) => Continue(t, d', o, inputs)
  }

  /** The inputs a call starts from: its journal's, or its seeds when it has none yet. */
  function StartInputs(t: Task, d: Disk, o: Opened): Option<seq<Input>> {
    if Journal(o) in d then JournalInputs(t, d, o)
    else if AttemptOk(t, o, o.seeds) then Some(o.seeds)
    else None
  }

  // ----- The durable actions a call is made of -----

  predicate CreatesJournal(t: Task, o: Opened, d: Disk, d': Disk) {
    Journal(o) !in d && JournalFits(t, o, o.seeds) && d' == WithJournal(t, d, o, o.seeds)
  }

  predicate StagesWindow(t: Task, o: Opened, d: Disk, d': Disk) {
    match JournalInputs(t, d, o)
    case None => false
    case Some(inputs) =>
      WantsMore(t, d, o, inputs) && Frontier(o, inputs) < |t.captured|
      && var next := NextInput(t, o, inputs);
         next.name !in d && d' == d[next.name := RangeOf(t, next)]
  }

  predicate AppendsInput(t: Task, o: Opened, d: Disk, d': Disk) {
    match JournalInputs(t, d, o)
    case None => false
    case Some(inputs) =>
      WantsMore(t, d, o, inputs) && Frontier(o, inputs) < |t.captured|
      && var next := NextInput(t, o, inputs);
         next.name in d && d[next.name] == RangeOf(t, next)
         && JournalFits(t, o, inputs + [next])
         && d' == WithJournal(t, d, o, inputs + [next])
  }

  predicate RecordsStep(t: Task, o: Opened, d: Disk, d': Disk) {
    match JournalInputs(t, d, o)
    case None => false
    case Some(inputs) =>
      inputs != []
      && RecordSpec(t.ledger, d, AsReceipts(inputs), Some(t.pin), t.limit).0.Recorded?
      && d' == RecordSpec(t.ledger, d, AsReceipts(inputs), Some(t.pin), t.limit).1
  }

  /** The only ways a call changes the disk, one atomic file operation each. */
  predicate Action(t: Task, d: Disk, d': Disk) {
    match Open(t, d)
    case None => false
    case Some(o) =>
      o.cursor.offset != t.ledger.extent && |o.history.steps| < MAX_STEPS
      && (CreatesJournal(t, o, d, d') || StagesWindow(t, o, d, d')
          || AppendsInput(t, o, d, d') || RecordsStep(t, o, d, d'))
  }

  /** A list of the durable disks some calls pass through, in order. */
  ghost predicate DurableRun(t: Task, ds: seq<Disk>) {
    |ds| > 0 && forall i :: 0 <= i < |ds| - 1 ==> DurableStep(t, ds, i)
  }

  ghost predicate DurableStep(t: Task, ds: seq<Disk>, i: nat)
    requires i < |ds| - 1
  {
    ds[i + 1] == ds[i] || Action(t, ds[i], ds[i + 1])
  }

  lemma {:induction false} RunStarts(t: Task, d: Disk)
    ensures DurableRun(t, [d])
  {
  }

  lemma {:induction false} RunGrows(t: Task, ds: seq<Disk>, d: Disk)
    requires DurableRun(t, ds) && (d == ds[|ds| - 1] || Action(t, ds[|ds| - 1], d))
    ensures DurableRun(t, ds + [d])
  {
    hide Action;
    var more := ds + [d];
    forall i | 0 <= i < |more| - 1 ensures DurableStep(t, more, i) {
      if i < |ds| - 1 { assert DurableStep(t, ds, i); }
    }
  }

  // ----- The call itself -----

  /** Compares a retained window with the source range, block by block, writing nothing. */
  method AdoptRetained(saved: Bytes, range: Bytes, quiet: bool) returns (ok: bool, matches: bool)
    ensures quiet ==> ok
    ensures ok ==> (matches <==> saved == range)
    ensures !ok ==> !matches
  {
    if |saved| != |range| { return true, false; }
    var left := |range|;
    var a: Bytes, b: Bytes := [], [];
    while left > 0
      invariant 0 <= left <= |range|
      invariant a == range[..|range| - left] && b == saved[..|range| - left]
    {
      if !quiet { if * { return false, false; } }
      var amount := Min(BLOCK, left);
      var at := |range| - left;
      a := a + range[at..at + amount];
      b := b + saved[at..at + amount];
      left := left - amount;
    }
    assert a == range && b == saved;
    if a != b { return true, false; }
    if !quiet { if * { return false, false; } }
    return true, true;
  }

  // ----- Frames: what an action leaves as it was -----

  /** The same files under the inputs' names give the same verdict. */
  lemma {:induction false} JoinedFrame(c: Codec, d: Disk, d': Disk, inputs: seq<Input>)
    requires forall r :: r in inputs ==> (r.name in d <==> r.name in d') && (r.name in d ==> d[r.name] == d'[r.name])
    ensures Joined(c, d, inputs) == Joined(c, d', inputs)
    decreases |inputs|
  {
    if inputs != [] {
      assert inputs[0] in inputs;
      assert forall r :: r in inputs[1..] ==> r in inputs;
      JoinedFrame(c, d, d', inputs[1..]);
    }
  }

  lemma {:induction false} VerdictFrame(t: Task, d: Disk, d': Disk, o: Opened, inputs: seq<Input>)
    requires forall r :: r in inputs ==> (r.name in d <==> r.name in d') && (r.name in d ==> d[r.name] == d'[r.name])
    ensures VerdictOn(t, d, o, inputs) == VerdictOn(t, d', o, inputs)
  {
    JoinedFrame(t.ledger.codec, d, d', inputs);
  }

  /** A verdict that looked at rows had every fragment in front of it. */
  lemma {:induction false} VerdictNeedsFiles(t: Task, d: Disk, o: Opened, inputs: seq<Input>)
    requires var v := VerdictOn(t, d, o, inputs); v == NoCompleteRow || v.Verified?
    ensures Joined(t.ledger.codec, d, inputs).Some?
    ensures 1 <= |inputs| <= 2 && forall r :: r in inputs ==> r.name in d && IsRawName(r.name)
  {
    var c := t.ledger.codec;
    assert AsReceipts(inputs)[0].input == inputs[0];
    assert Intact(c, d, inputs[0]);
    if |inputs| == 2 {
      assert Joined(c, d, inputs[1..]).Some?;
      assert inputs[1..][0] == inputs[1] && AsReceipts(inputs)[1].input == inputs[1];
      assert Intact(c, d, inputs[1]);
    }
    forall r | r in inputs ensures r.name in d && IsRawName(r.name) {
      var i :| 0 <= i < |inputs| && inputs[i] == r;
    }
  }

  /** Adding a raw file that was not there, or rewriting metadata, does not change what is wanted. */
  lemma {:induction false} WantsMoreFrame(t: Task, d: Disk, o: Opened, inputs: seq<Input>, name: Name, bytes: Bytes)
    requires WantsMore(t, d, o, inputs)
    requires name !in d || !IsRawName(name) || d[name] == bytes
    ensures WantsMore(t, d[name := bytes], o, inputs)
  {
    if inputs != [] {
      VerdictNeedsFiles(t, d, o, inputs);
      VerdictFrame(t, d, d[name := bytes], o, inputs);
    }
  }

  /** Opening looks only at the progress file, the link and the parent. */
  lemma {:induction false} OpenFrame(t: Task, d: Disk, name: Name, bytes: Bytes)
    requires !name.ProgressFile? && !name.LinkFile?
    ensures Open(t, d[name := bytes]) == Open(t, d)
  {
    var d' := d[name := bytes];
    if StepPolicyOk(t) {
      assert ReadHistory(t.ledger, d', Some(t.pin)) == ReadHistory(t.ledger, d, Some(t.pin));
      LoadFrame(t, d, d');
    }
  }

  lemma {:induction false} LoadFrame(t: Task, d: Disk, d': Disk)
    requires forall n: Name :: n.ProgressFile? || n.LinkFile? ==> (n in d <==> n in d') && (n in d ==> d[n] == d'[n])
    ensures LinkInputs(t, d) == LinkInputs(t, d')
  {
    if t.linked && t.ledger.path.ProgressFile? {
      var raw := ReadMetadata(d, LinkFile(t.ledger.path.title), t.ledger.evidence, t.ledger.codec);
      if raw.Some? && t.links.load(raw.value).Some? {
        var link := t.links.load(raw.value).value;
        assert ReadHistory(ParentLedger(t.ledger, link), d, Some(link.parentPin))
            == ReadHistory(ParentLedger(t.ledger, link), d', Some(link.parentPin));
      }
    }
  }

  /** A published journal is read back as it was written. */
  lemma {:induction false} JournalReadsBack(t: Task, d: Disk, o: Opened, inputs: seq<Input>)
    requires Faithful(t.journals) && JournalFits(t, o, inputs) && AttemptOk(t, o, inputs)
    ensures JournalInputs(t, WithJournal(t, d, o, inputs), o) == Some(inputs)
  {
    assert ReadsBack(t.journals, Attempt(BindingOf(t, o.cursor, o.seeds), inputs));
  }

  lemma {:induction false} JournalFrame(t: Task, d: Disk, o: Opened, name: Name, bytes: Bytes)
    requires name != Journal(o)
    ensures JournalInputs(t, d[name := bytes], o) == JournalInputs(t, d, o)
  {
  }

  /** The cursor never passes the extent. */
  lemma {:induction false} CursorWithinExtent(t: Task, d: Disk)
    requires Open(t, d).Some?
    ensures Open(t, d).value.cursor.offset <= t.ledger.extent
    ensures IsHash(Open(t, d).value.cursor.lastHash)
  {
    var h := Open(t, d).value.history;
    CursorIsHash(h.steps, t.ledger.anchor, t.ledger.extent);
  }

  /** Appending this attempt's own next window keeps the attempt in order, unless the inputs are refused. */
  lemma {:induction false} AppendedAttemptOk(t: Task, o: Opened, inputs: seq<Input>)
    requires AttemptOk(t, o, inputs) && |inputs| < 2 && Frontier(o, inputs) < |t.captured|
    requires InputsOk(inputs + [NextInput(t, o, inputs)], o.cursor, t.ledger.extent)
    ensures AttemptOk(t, o, inputs + [NextInput(t, o, inputs)])
  {
    var more := inputs + [NextInput(t, o, inputs)];
    assert more[..|o.seeds|] == inputs[..|o.seeds|];
    forall i | |o.seeds| <= i < |more| ensures StagedInputOk(t, o, more, i) {
      if i < |inputs| {
        assert more[..i] == inputs[..i];
        assert StagedInputOk(t, o, inputs, i);
      } else {
        assert more[..i] == inputs;
      }
    }
  }

  /** Recording under an opened pin is verifying and publishing on the opened history. */
  lemma {:induction false} RecordOnOpened(t: Task, d: Disk, o: Opened, inputs: seq<Input>)
    requires Open(t, d) == Some(o)
    ensures RecordSpec(t.ledger, d, AsReceipts(inputs), Some(t.pin), t.limit)
         == RecordVerified(t.ledger, d, o.history, o.cursor, AsReceipts(inputs), t.limit)
  {
  }

  /** A window is retained exactly when the verdict is that no row is complete. */
  lemma {:induction false} RetainedMeansIncomplete(t: Task, d: Disk, o: Opened, inputs: seq<Input>, copied: nat)
    requires Open(t, d) == Some(o) && |o.history.steps| < MAX_STEPS
    requires InputsOk(inputs, o.cursor, t.ledger.extent)
    ensures Finish(t, d, inputs, copied).result.WindowRetained? <==> VerdictOn(t, d, o, inputs) == NoCompleteRow
    ensures Finish(t, d, inputs, copied).result.WindowRetained? ==> Finish(t, d, inputs, copied).disk == d
  {
    hide Appended, FragmentVerdict, InputsOk, Open, RecordSpec;
    RecordOnOpened(t, d, o, inputs);
    assert AllStaged(AsReceipts(inputs));
  }

  // ----- The call itself, continued -----

  lemma {:induction false} RecordIsAction(t: Task, o: Opened, d: Disk, inputs: seq<Input>)
    requires Open(t, d) == Some(o) && o.cursor.offset != t.ledger.extent && |o.history.steps| < MAX_STEPS
    requires inputs != []
    requires JournalInputs(t, d, o) == Some(inputs) || !InputsOk(inputs, o.cursor, t.ledger.extent)
    ensures var (r, d') := RecordSpec(t.ledger, d, AsReceipts(inputs), Some(t.pin), t.limit);
            (d' == d || Action(t, d, d')) && (!r.Recorded? ==> d' == d)
  {
    hide Appended, AppendsInput, CreatesJournal, FragmentVerdict, JournalInputs, Open, StagesWindow;
    RecordOnOpened(t, d, o, inputs);
    var (r, d') := RecordSpec(t.ledger, d, AsReceipts(inputs), Some(t.pin), t.limit);
    if r.Recorded? { assert RecordsStep(t, o, d, d'); }
  }

  lemma {:induction false} RecordGrowsRun(t: Task, o: Opened, before: seq<Disk>, d': Disk, inputs: seq<Input>)
    requires DurableRun(t, before)
    requires var d := before[|before| - 1];
             && Open(t, d) == Some(o) && o.cursor.offset != t.ledger.extent && |o.history.steps| < MAX_STEPS
             && inputs != []
             && (JournalInputs(t, d, o) == Some(inputs) || !InputsOk(inputs, o.cursor, t.ledger.extent))
             && (d' == d || d' == RecordSpec(t.ledger, d, AsReceipts(inputs), Some(t.pin), t.limit).1)
    ensures DurableRun(t, before + [d'])
  {
    RecordIsAction(t, o, before[|before| - 1], inputs);
    RunGrows(t, before, d');
  }

  /** Records the attempt's inputs and reports the outcome. */
  method FinishStep(store: Store, t: Task, inputs: seq<Input>, copied: nat, quiet: bool, ghost o: Opened, ghost before: seq<Disk>)
      returns (r: StepResult, reported: nat, ghost run: seq<Disk>)
    requires DurableRun(t, before) && before[|before| - 1] == store.files
    requires Open(t, store.files) == Some(o) && o.cursor.offset != t.ledger.extent && |o.history.steps| < MAX_STEPS
    requires inputs != []
    requires JournalInputs(t, store.files, o) == Some(inputs) || !InputsOk(inputs, o.cursor, t.ledger.extent)
    modifies store
    ensures store.locks == old(store.locks)
    ensures DurableRun(t, run) && before <= run && run[|run| - 1] == store.files
    ensures SegmentLock !in old(store.locks) && (quiet || !Cut(r)) ==>
              Outcome(r, store.files, reported) == Finish(t, old(store.files), inputs, copied)
    ensures !r.StepStopped? && !r.StepRecorded? ==> store.files == old(store.files)
    ensures SegmentLock in old(store.locks) ==> r.StepFailed? || r.StepStopped?
    ensures r != TipReached && reported == if Raised(r) then 0 else copied
  {
    hide DurableRun, InputsOk, JournalInputs, Open, RecordSpec;
    ghost var start := store.files;
    var recorded := RecordFragmentStep(store, t.ledger, AsReceipts(inputs), Some(t.pin), t.limit, quiet);
    RecordGrowsRun(t, o, before, store.files, inputs);
    RecordSpecCompletes(t.ledger, start, AsReceipts(inputs), Some(t.pin), t.limit);
    run := before + [store.files];
    r := Reported(recorded, |inputs|);
    reported := if Raised(r) then 0 else copied;
  }

  lemma {:induction false} CapturedRange(source: Bytes, captured: Bytes, offset: nat, end: nat)
    requires |captured| <= |source| && source[..|captured|] == captured && offset <= end <= |captured|
    ensures source[offset..end] == captured[offset..end]
  {
    forall i | 0 <= i < end - offset ensures source[offset..end][i] == captured[offset..end][i] {
      assert source[..|captured|][offset + i] == source[offset + i];
    }
  }

  lemma {:induction false} OpenedPolicyOk(t: Task, d: Disk)
    requires Open(t, d).Some?
    ensures StepPolicyOk(t)
  {
  }

  /** Whether the next window is now on disk exactly; Refused when an existing file differs. */
  datatype Obtained = Present | Differs | Unobtained

  /** Copies the next window, or adopts the file an interrupted call left; `read` counts source bytes copied. */
  method ObtainWindow(store: Store, t: Task, inputs: seq<Input>, o: Opened, source: Bytes, rate: nat, deadline: real,
                      quiet: bool, ghost before: seq<Disk>)
      returns (r: Obtained, copied: nat, read: nat, ghost run: seq<Disk>)
    requires |t.captured| == t.ledger.extent <= |source| && source[..t.ledger.extent] == t.captured
    requires DurableRun(t, before) && before[|before| - 1] == store.files
    requires Open(t, store.files) == Some(o) && o.cursor.offset != t.ledger.extent && |o.history.steps| < MAX_STEPS
    requires JournalInputs(t, store.files, o) == Some(inputs) && WantsMore(t, store.files, o, inputs)
    requires Frontier(o, inputs) < |t.captured|
    modifies store
    ensures store.locks == old(store.locks)
    ensures DurableRun(t, run) && before <= run && run[|run| - 1] == store.files
    ensures var next := NextInput(t, o, inputs);
            && (r.Present? ==> (next.name !in old(store.files) || old(store.files)[next.name] == RangeOf(t, next))
                               && store.files == old(store.files)[next.name := RangeOf(t, next)]
                               && copied == if next.name in old(store.files) then 0 else next.size)
            && (r.Differs? ==> next.name in old(store.files) && old(store.files)[next.name] != RangeOf(t, next)
                               && store.files == old(store.files))
    ensures copied <= read <= t.window && (r.Present? ==> copied == read)
    ensures quiet && SegmentLock !in old(store.locks) && PaceOk(rate, deadline) ==> !r.Unobtained?
  {
    hide DurableRun, JournalInputs, Open, WantsMore;
    copied, read := 0, 0;
    run := before;
    var next := NextInput(t, o, inputs);
    if !quiet { if * { return Unobtained, 0, 0, run; } }
    if next.name in store.files {
      var ok, matches := AdoptRetained(store.files[next.name], RangeOf(t, next), quiet);
      if !ok { return Unobtained, 0, 0, run; }
      if !matches { return Differs, 0, 0, run; }
      assert store.files == store.files[next.name := RangeOf(t, next)];
      return Present, 0, 0, run;
    }
    ghost var start := store.files;
    var staged, count := StageRawChunk(store, t.ledger.codec, source, next.name, next.offset, t.ledger.extent,
                                       t.window, rate, deadline, quiet);
    read := count;
    OpenedPolicyOk(t, start);
    CapturedRange(source, t.captured, next.offset, next.end);
    StagingGrowsRun(t, o, run, store.files, inputs);
    run := run + [store.files];
    if staged.StageStopped? { return Unobtained, 0, read, run; }
    return Present, read, read, run;
  }

  lemma {:induction false} StagingGrowsRun(t: Task, o: Opened, before: seq<Disk>, d': Disk, inputs: seq<Input>)
    requires DurableRun(t, before)
    requires var d := before[|before| - 1];
             && Open(t, d) == Some(o) && o.cursor.offset != t.ledger.extent && |o.history.steps| < MAX_STEPS
             && JournalInputs(t, d, o) == Some(inputs) && WantsMore(t, d, o, inputs)
             && Frontier(o, inputs) < |t.captured|
             && var next := NextInput(t, o, inputs);
                d' == d || (next.name !in d && d' == d[next.name := RangeOf(t, next)])
    ensures DurableRun(t, before + [d'])
  {
    var d := before[|before| - 1];
    if d' != d { assert StagesWindow(t, o, d, d'); }
    RunGrows(t, before, d');
  }

  lemma {:induction false} AppendingGrowsRun(t: Task, o: Opened, before: seq<Disk>, inputs: seq<Input>)
    requires DurableRun(t, before)
    requires var d := before[|before| - 1];
             && Open(t, d) == Some(o) && o.cursor.offset != t.ledger.extent && |o.history.steps| < MAX_STEPS
             && JournalInputs(t, d, o) == Some(inputs) && WantsMore(t, d, o, inputs)
             && Frontier(o, inputs) < |t.captured|
             && var next := NextInput(t, o, inputs);
                next.name in d && d[next.name] == RangeOf(t, next) && JournalFits(t, o, inputs + [next])
    ensures DurableRun(t, before + [WithJournal(t, before[|before| - 1], o, inputs + [NextInput(t, o, inputs)])])
  {
    hide CreatesJournal, FragmentVerdict, Open, RecordsStep, StagesWindow;
    var d := before[|before| - 1];
    var d' := WithJournal(t, d, o, inputs + [NextInput(t, o, inputs)]);
    assert AppendsInput(t, o, d, d');
    RunGrows(t, before, d');
  }

  /** After the window is on disk, everything the next action needs still holds. */
  lemma {:induction false} WindowOnDisk(t: Task, o: Opened, d: Disk, inputs: seq<Input>)
    requires Open(t, d) == Some(o)
    requires JournalInputs(t, d, o) == Some(inputs) && WantsMore(t, d, o, inputs)
    requires Frontier(o, inputs) < |t.captured|
    requires var next := NextInput(t, o, inputs); next.name !in d || d[next.name] == RangeOf(t, next)
    ensures var next := NextInput(t, o, inputs);
            var d' := d[next.name := RangeOf(t, next)];
            Open(t, d') == Some(o) && JournalInputs(t, d', o) == Some(inputs) && WantsMore(t, d', o, inputs)
  {
    var next := NextInput(t, o, inputs);
    OpenFrame(t, d, next.name, RangeOf(t, next));
    JournalFrame(t, d, o, next.name, RangeOf(t, next));
    WantsMoreFrame(t, d, o, inputs, next.name, RangeOf(t, next));
  }

  lemma {:induction false} InputJournaled(t: Task, o: Opened, d: Disk, inputs: seq<Input>)
    requires Faithful(t.journals)
    requires Open(t, d) == Some(o) && AttemptOk(t, o, inputs) && |inputs| < 2 && Frontier(o, inputs) < |t.captured|
    requires JournalFits(t, o, inputs + [NextInput(t, o, inputs)])
    ensures var more := inputs + [NextInput(t, o, inputs)];
            var d' := WithJournal(t, d, o, more);
            Open(t, d') == Some(o)
            && (JournalInputs(t, d', o) == Some(more) || !InputsOk(more, o.cursor, t.ledger.extent))
  {
    var more := inputs + [NextInput(t, o, inputs)];
    OpenFrame(t, d, Journal(o), WithJournal(t, d, o, more)[Journal(o)]);
    if InputsOk(more, o.cursor, t.ledger.extent) {
      AppendedAttemptOk(t, o, inputs);
      JournalReadsBack(t, d, o, more);
    }
  }

  lemma {:induction false} JournaledFinishes(t: Task, d: Disk, o: Opened, inputs: seq<Input>, copied: nat)
    requires Frontier(o, inputs) < |t.captured|
    ensures var more := inputs + [NextInput(t, o, inputs)];
            Journaled(t, d, o, inputs, copied)
            == if JournalFits(t, o, more) then Finish(t, WithJournal(t, d, o, more), more, copied)
               else Outcome(StepFailed, d, 0)
  {
  }

  method JournalAndFinish(store: Store, t: Task, inputs: seq<Input>, copied: nat, o: Opened, quiet: bool, ghost before: seq<Disk>)
      returns (r: StepResult, reported: nat, ghost run: seq<Disk>)
    requires Faithful(t.journals)
    requires DurableRun(t, before) && before[|before| - 1] == store.files
    requires Open(t, store.files) == Some(o) && o.cursor.offset != t.ledger.extent && |o.history.steps| < MAX_STEPS
    requires JournalInputs(t, store.files, o) == Some(inputs) && WantsMore(t, store.files, o, inputs)
    requires Frontier(o, inputs) < |t.captured|
    requires var next := NextInput(t, o, inputs);
             next.name in store.files && store.files[next.name] == RangeOf(t, next)
    modifies store
    ensures store.locks == old(store.locks)
    ensures DurableRun(t, run) && before <= run && run[|run| - 1] == store.files
    ensures SegmentLock !in old(store.locks) && (quiet || !Cut(r)) ==>
              Outcome(r, store.files, reported) == Journaled(t, old(store.files), o, inputs, copied)
    ensures r != TipReached && reported == if Raised(r) then 0 else copied
  {
    hide Journaled, Finish, DurableRun, VerdictOn, JournalInputs, Open, InputsOk, WithJournal;
    var more := inputs + [NextInput(t, o, inputs)];
    JournaledFinishes(t, store.files, o, inputs, copied);
    var ok;
    ok, r, run := JournalInput(store, t, inputs, o, quiet, before);
    if !ok { return r, 0, run; }
    r, reported, run := FinishStep(store, t, more, copied, quiet, o, run);
  }

  /** Republishes the journal with the next window in it. */
  method JournalInput(store: Store, t: Task, inputs: seq<Input>, o: Opened, quiet: bool, ghost before: seq<Disk>)
      returns (ok: bool, r: StepResult, ghost run: seq<Disk>)
    requires Faithful(t.journals)
    requires DurableRun(t, before) && before[|before| - 1] == store.files
    requires Open(t, store.files) == Some(o) && o.cursor.offset != t.ledger.extent && |o.history.steps| < MAX_STEPS
    requires JournalInputs(t, store.files, o) == Some(inputs) && WantsMore(t, store.files, o, inputs)
    requires Frontier(o, inputs) < |t.captured|
    requires var next := NextInput(t, o, inputs);
             next.name in store.files && store.files[next.name] == RangeOf(t, next)
    modifies store`files
    ensures DurableRun(t, run) && before <= run && run[|run| - 1] == store.files
    ensures var more := inputs + [NextInput(t, o, inputs)];
            if ok then
              JournalFits(t, o, more) && store.files == WithJournal(t, old(store.files), o, more)
              && Open(t, store.files) == Some(o)
              && (JournalInputs(t, store.files, o) == Some(more) || !InputsOk(more, o.cursor, t.ledger.extent))
            else
              store.files == old(store.files) && ((!quiet && r.StepStopped?) || (r.StepFailed? && !JournalFits(t, o, more)))
  {
    hide DurableRun, FragmentVerdict, Open;
    run := before;
    r := StepStopped;
    var more := inputs + [NextInput(t, o, inputs)];
    if !JournalFits(t, o, more) { return false, StepFailed, run; }
    if !quiet { if * { return false, StepStopped, run; } }
    AppendingGrowsRun(t, o, run, inputs);
    InputJournaled(t, o, store.files, inputs);
    store.files := WithJournal(t, store.files, o, more);
    run := run + [store.files];
    ok := true;
  }

  lemma {:induction false} ExtendIsJournaled(t: Task, d: Disk, o: Opened, inputs: seq<Input>, d': Disk, copied: nat)
    requires Frontier(o, inputs) < |t.captured|
    requires var next := NextInput(t, o, inputs);
             (next.name !in d || d[next.name] == RangeOf(t, next)) && d' == d[next.name := RangeOf(t, next)]
             && copied == if next.name in d then 0 else next.size
    ensures Extend(t, d, o, inputs) == Journaled(t, d', o, inputs, copied)
  {
  }

  lemma {:induction false} ExtendRefuses(t: Task, d: Disk, o: Opened, inputs: seq<Input>)
    requires Frontier(o, inputs) < |t.captured|
    requires var next := NextInput(t, o, inputs); next.name in d && d[next.name] != RangeOf(t, next)
    ensures Extend(t, d, o, inputs) == Outcome(StepFailed, d, 0)
  {
  }

  /** Obtains the next window, journals it and records. */
  method ExtendStep(store: Store, t: Task, inputs: seq<Input>, o: Opened, source: Bytes, rate: nat, deadline: real,
                    quiet: bool, ghost before: seq<Disk>)
      returns (r: StepResult, copied: nat, read: nat, ghost run: seq<Disk>)
    requires Faithful(t.journals)
    requires |t.captured| == t.ledger.extent <= |source| && source[..t.ledger.extent] == t.captured
    requires DurableRun(t, before) && before[|before| - 1] == store.files
    requires Open(t, store.files) == Some(o) && o.cursor.offset != t.ledger.extent && |o.history.steps| < MAX_STEPS
    requires JournalInputs(t, store.files, o) == Some(inputs) && WantsMore(t, store.files, o, inputs)
    requires Frontier(o, inputs) < |t.captured|
    modifies store
    ensures store.locks == old(store.locks)
    ensures DurableRun(t, run) && before <= run && run[|run| - 1] == store.files
    ensures SegmentLock !in old(store.locks) && PaceOk(rate, deadline) && (quiet || !Cut(r)) ==>
              Outcome(r, store.files, copied) == Extend(t, old(store.files), o, inputs)
    ensures copied <= read <= t.window && (!Raised(r) ==> copied == read)
    ensures r != TipReached
  {
    hide Extend, Journaled, DurableRun, VerdictOn, JournalInputs, Open;
    ghost var start := store.files;
    var obtained;
    obtained, copied, read, run := ObtainWindow(store, t, inputs, o, source, rate, deadline, quiet, before);
    match obtained {
      case Unobtained => return StepStopped, 0, read, run;
      case Differs =>
        ExtendRefuses(t, start, o, inputs);
        return StepFailed, 0, read, run;
      case Present =>
    }
    WindowOnDisk(t, o, start, inputs);
    ExtendIsJournaled(t, start, o, inputs, store.files, copied);
    r, copied, run := JournalAndFinish(store, t, inputs, copied, o, quiet, run);
  }

  /** Records the inputs an attempt already holds; `more` when they hold no complete row and another window may follow. */
  method RecordHeld(store: Store, t: Task, inputs: seq<Input>, o: Opened, quiet: bool, ghost before: seq<Disk>)
      returns (more: bool, r: StepResult, ghost run: seq<Disk>)
    requires DurableRun(t, before) && before[|before| - 1] == store.files && |t.captured| == t.ledger.extent
    requires Open(t, store.files) == Some(o) && o.cursor.offset != t.ledger.extent && |o.history.steps| < MAX_STEPS
    requires JournalInputs(t, store.files, o) == Some(inputs) && inputs != []
    modifies store
    ensures store.locks == old(store.locks)
    ensures DurableRun(t, run) && before <= run && run[|run| - 1] == store.files
    ensures !more && SegmentLock !in old(store.locks) && (quiet || !Cut(r)) ==>
              Outcome(r, store.files, 0) == Continue(t, old(store.files), o, inputs)
    ensures r != TipReached
    ensures more ==> store.files == old(store.files) && SegmentLock !in store.locks
                     && WantsMore(t, store.files, o, inputs) && Frontier(o, inputs) < |t.captured|
                     && Continue(t, store.files, o, inputs) == Extend(t, store.files, o, inputs)
  {
    ghost var start := store.files;
    CursorWithinExtent(t, start);
    var copied;
    r, copied, run := FinishStep(store, t, inputs, 0, quiet, o, before);
    ContinueFinishes(t, start, o, inputs);
    more := r.WindowRetained? && |inputs| != 2 && inputs[|inputs| - 1].end != t.ledger.extent
            && SegmentLock !in store.locks;
    if more { ContinueExtends(t, start, o, inputs); }
  }

  /** With a valid journal in place: record what it holds, and extend it if that wants more. */
  method ContinueStep(store: Store, t: Task, inputs: seq<Input>, o: Opened, source: Bytes, rate: nat, deadline: real,
                      quiet: bool, ghost before: seq<Disk>)
      returns (r: StepResult, copied: nat, read: nat, ghost run: seq<Disk>)
    requires Faithful(t.journals)
    requires |t.captured| == t.ledger.extent <= |source| && source[..t.ledger.extent] == t.captured
    requires DurableRun(t, before) && before[|before| - 1] == store.files
    requires Open(t, store.files) == Some(o) && o.cursor.offset != t.ledger.extent && |o.history.steps| < MAX_STEPS
    requires JournalInputs(t, store.files, o) == Some(inputs)
    modifies store
    ensures store.locks == old(store.locks)
    ensures DurableRun(t, run) && before <= run && run[|run| - 1] == store.files
    ensures SegmentLock !in old(store.locks) && PaceOk(rate, deadline) && (quiet || !Cut(r)) ==>
              Outcome(r, store.files, copied) == Continue(t, old(store.files), o, inputs)
    ensures copied <= read <= t.window && (!Raised(r) ==> copied == read)
    ensures r != TipReached
  {
    hide Continue, Extend, Finish, DurableRun, VerdictOn, WantsMore, Open;
    run := before;
    copied, read := 0, 0;
    var more := true;
    if inputs != [] {
      more, r, run := RecordHeld(store, t, inputs, o, quiet, run);
    } else {
      CursorWithinExtent(t, store.files);
      ContinueExtends(t, store.files, o, inputs);
    }
    if more {
      r, copied, read, run := ExtendStep(store, t, inputs, o, source, rate, deadline, quiet, run);
    }
  }

  lemma {:induction false} ContinueFinishes(t: Task, d: Disk, o: Opened, inputs: seq<Input>)
    requires Open(t, d) == Some(o) && |o.history.steps| < MAX_STEPS
    requires inputs != [] && InputsOk(inputs, o.cursor, t.ledger.extent)
    ensures var f := Finish(t, d, inputs, 0);
            (!f.result.WindowRetained? || |inputs| == 2 || inputs[|inputs| - 1].end == t.ledger.extent) ==>
              Continue(t, d, o, inputs) == f
  {
    RetainedMeansIncomplete(t, d, o, inputs, 0);
  }

  lemma {:induction false} ContinueExtends(t: Task, d: Disk, o: Opened, inputs: seq<Input>)
    requires Open(t, d) == Some(o) && |o.history.steps| < MAX_STEPS && |t.captured| == t.ledger.extent
    requires o.cursor.offset < t.ledger.extent
    requires inputs != [] ==>
               InputsOk(inputs, o.cursor, t.ledger.extent) && |inputs| == 1
               && inputs[0].end != t.ledger.extent
               && Finish(t, d, inputs, 0).result.WindowRetained?
    ensures WantsMore(t, d, o, inputs) && Frontier(o, inputs) < |t.captured|
    ensures Continue(t, d, o, inputs) == Extend(t, d, o, inputs)
  {
    if inputs != [] { RetainedMeansIncomplete(t, d, o, inputs, 0); }
  }

  /**
    One call. Every durable disk it passes through is listed in `run`, whatever stops it. A quiet
    call, and any other that no guard cut short, returns, leaves and copies exactly what is specified.
   */
  method AdvanceFragmentStep(store: Store, t: Task, source: Bytes, rate: nat, deadline: real, quiet: bool)
      returns (r: StepResult, copied: nat, read: nat, ghost run: seq<Disk>)
    requires Faithful(t.journals)
    requires t.ledger.extent <= |source| && |t.captured| == t.ledger.extent ==> source[..t.ledger.extent] == t.captured
    modifies store
    ensures store.locks == old(store.locks)
    ensures DurableRun(t, run) && run[0] == old(store.files) && run[|run| - 1] == store.files
    ensures StepLock !in old(store.locks) && SegmentLock !in old(store.locks) && t.ledger.extent <= |source|
            && PaceOk(rate, deadline) && (quiet || !Cut(r)) ==>
              Outcome(r, store.files, copied) == Advance(t, old(store.files))
    ensures copied <= read <= t.window && (!Raised(r) ==> copied == read)
    ensures StepLock in old(store.locks) ==> (r.StepFailed? || r.StepStopped?) && store.files == old(store.files) && read == 0
  {
    run := [store.files];
    copied, read := 0, 0;
    if !StepPolicyOk(t) || !PaceOk(rate, deadline) { return StepFailed, 0, 0, run; }
    if !quiet { if * { return StepStopped, 0, 0, run; } }
    if StepLock in store.locks { return StepFailed, 0, 0, run; }
    store.locks := store.locks + {StepLock};
    r, copied, read, run := AdvanceLocked(store, t, source, rate, deadline, quiet);
    store.locks := store.locks - {StepLock};
  }

  method AdvanceLocked(store: Store, t: Task, source: Bytes, rate: nat, deadline: real, quiet: bool)
      returns (r: StepResult, copied: nat, read: nat, ghost run: seq<Disk>)
    requires Faithful(t.journals) && StepPolicyOk(t)
    requires t.ledger.extent <= |source| ==> source[..t.ledger.extent] == t.captured
    modifies store
    ensures store.locks == old(store.locks)
    ensures DurableRun(t, run) && run[0] == old(store.files) && run[|run| - 1] == store.files
    ensures SegmentLock !in old(store.locks) && t.ledger.extent <= |source|
            && PaceOk(rate, deadline) && (quiet || !Cut(r)) ==>
              Outcome(r, store.files, copied) == Advance(t, old(store.files))
    ensures copied <= read <= t.window && (!Raised(r) ==> copied == read)
  {
    hide Advance, Continue, JournalInputs, Open;
    copied, read := 0, 0;
    var going, o, inputs;
    going, r, o, inputs, run := OpenAttempt(store, t, source, quiet);
    if going {
      ghost var attempted := run;
      r, copied, read, run := ContinueStep(store, t, inputs, o, source, rate, deadline, quiet, run);
      assert run[0] == attempted[0];
    }
  }

  /** Finds the attempt under the pin: its retained journal, or a new one with the inputs carried over. */
  method OpenAttempt(store: Store, t: Task, source: Bytes, quiet: bool)
      returns (going: bool, r: StepResult, o: Opened, inputs: seq<Input>, ghost run: seq<Disk>)
    requires Faithful(t.journals) && StepPolicyOk(t)
    modifies store`files
    ensures DurableRun(t, run) && run[0] == old(store.files) && run[|run| - 1] == store.files
    ensures if going then
              Open(t, store.files) == Some(o) && o.cursor.offset != t.ledger.extent && |o.history.steps| < MAX_STEPS
              && t.ledger.extent <= |source| && JournalInputs(t, store.files, o) == Some(inputs)
              && Advance(t, old(store.files)) == Continue(t, store.files, o, inputs)
            else
              r == TipReached || (r == StepStopped && !quiet) || r == StepFailed
    ensures !going && t.ledger.extent <= |source| && !r.StepStopped? ==>
              Outcome(r, store.files, 0) == Advance(t, old(store.files))
  {
    hide AttemptOk, Continue, DurableRun, Open;
    run := [store.files];
    RunStarts(t, store.files);
    inputs := [];
    r := StepFailed;
    ghost var start := store.files;
    var found := Open(t, store.files);
    if found.None? {
      o := Opened(History(t.ledger.anchor, t.ledger.evidence, t.ledger.extent, []), t.ledger.anchor, [], t.pin);
      return false, StepFailed, o, inputs, run;
    }
    o := found.value;
    if o.cursor.offset == t.ledger.extent { return false, TipReached, o, inputs, run; }
    if |o.history.steps| >= MAX_STEPS || |source| < t.ledger.extent { return false, StepFailed, o, inputs, run; }
    if |t.bindings.dump(BindingOf(t, o.cursor, o.seeds))| > MAX_METADATA { return false, StepFailed, o, inputs, run; }
    if Journal(o) in store.files {
      var kept := JournalInputs(t, store.files, o);
      if kept.None? { return false, StepFailed, o, inputs, run; }
      AdvanceResumes(t, start, o, kept.value);
      return true, StepFailed, o, kept.value, run;
    }
    if !JournalFits(t, o, o.seeds) { return false, StepFailed, o, inputs, run; }
    if !quiet { if * { return false, StepStopped, o, inputs, run; } }
    JournalCreated(t, start, o);
    CreatingGrowsRun(t, run, o);
    store.files := WithJournal(t, store.files, o, o.seeds);
    run := run + [store.files];
    if !AttemptOk(t, o, o.seeds) { return false, StepFailed, o, inputs, run; }
    JournalReadsBack(t, start, o, o.seeds);
    return true, StepFailed, o, o.seeds, run;
  }

  lemma {:induction false} AdvanceResumes(t: Task, d: Disk, o: Opened, inputs: seq<Input>)
    requires Open(t, d) == Some(o) && o.cursor.offset != t.ledger.extent && |o.history.steps| < MAX_STEPS
    requires |t.bindings.dump(BindingOf(t, o.cursor, o.seeds))| <= MAX_METADATA
    requires JournalInputs(t, d, o) == Some(inputs)
    ensures Advance(t, d) == Continue(t, d, o, inputs)
  {
  }

  lemma {:induction false} JournalCreated(t: Task, d: Disk, o: Opened)
    requires Open(t, d) == Some(o) && o.cursor.offset != t.ledger.extent && |o.history.steps| < MAX_STEPS
    requires |t.bindings.dump(BindingOf(t, o.cursor, o.seeds))| <= MAX_METADATA
    requires Journal(o) !in d && JournalFits(t, o, o.seeds)
    ensures var d' := WithJournal(t, d, o, o.seeds);
            Open(t, d') == Some(o)
            && Advance(t, d) == if AttemptOk(t, o, o.seeds) then Continue(t, d', o, o.seeds) else Outcome(StepFailed, d', 0)
  {
    var d' := WithJournal(t, d, o, o.seeds);
    OpenFrame(t, d, Journal(o), d'[Journal(o)]);
  }

  lemma {:induction false} CreatingGrowsRun(t: Task, before: seq<Disk>, o: Opened)
    requires DurableRun(t, before)
    requires var d := before[|before| - 1];
             && Open(t, d) == Some(o) && o.cursor.offset != t.ledger.extent && |o.history.steps| < MAX_STEPS
             && Journal(o) !in d && JournalFits(t, o, o.seeds)
    ensures DurableRun(t, before + [WithJournal(t, before[|before| - 1], o, o.seeds)])
  {
    var d := before[|before| - 1];
    var d' := WithJournal(t, d, o, o.seeds);
    assert CreatesJournal(t, o, d, d');
    RunGrows(t, before, d');
  }
}
