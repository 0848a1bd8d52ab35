/** What an uninterrupted recovery step reports, told from the disk it leaves and from the source. */
module StepOutcomes {
  import opened Foundations
  import opened ChainRows
  import opened FragmentedRow
  import opened FragmentProgress
  import opened RecoveryStep
  import opened RetryRefinement
  import opened BoundedRows
  import opened RecoveryRuns

  /** The call returned a verdict on rows: it neither raised nor stood at the tip. */
  predicate Told(r: StepResult) {
    r.StepRecorded? || r.WindowRetained? || r.StepNotRecorded?
  }

  /** The attempt's journal on disk holds these inputs. */
  predicate Holds(t: Task, d: Disk, o: Opened, inputs: seq<Input>) {
    JournalFile(o.key) in d
    && t.journals.load(d[JournalFile(o.key)]) == Some(Attempt(BindingOf(t, o.cursor, o.seeds), inputs))
  }

  /** What a report must say of the inputs held: their verdict, whether a second window is spent, and the new file. */
  predicate Tells(t: Task, d: Disk, o: Opened, inputs: seq<Input>, r: StepResult) {
    var v := FragmentVerdict(t.ledger.codec, d, AsReceipts(inputs), o.cursor, t.limit);
    match r
    case WindowRetained(exhausted) => v == NoCompleteRow && (exhausted <==> |inputs| == 2)
    case StepNotRecorded(w) => w == v == Rejected
    case StepRecorded(pin, next) =>
      v.Verified? && v.next == next && t.ledger.path in d && t.ledger.codec.sha256(d[t.ledger.path]) == pin
    case _ => false
  }

  lemma {:induction false} NeverBlocked(c: Codec, files: Disk, receipts: seq<Receipt>, cursor: Cursor, limit: nat)
    ensures FragmentVerdict(c, files, receipts, cursor, limit) != Blocked
  {
    hide Joined, ScanRows;
  }

  lemma {:induction false} FinishTells(t: Task, d: Disk, o: Opened, inputs: seq<Input>, copied: nat)
    requires Open(t, d) == Some(o) && Holds(t, d, o, inputs)
    requires Told(Finish(t, d, inputs, copied).result)
    ensures var f := Finish(t, d, inputs, copied);
            && Holds(t, f.disk, o, inputs) && Tells(t, f.disk, o, inputs, f.result) && 1 <= |inputs| <= 2
            && t.ledger.path in d && t.ledger.path in f.disk
            && (!f.result.StepRecorded? ==> f.disk[t.ledger.path] == d[t.ledger.path])
  {
    hide Appended, FragmentVerdict, IsHash, Joined, StateCursor;
    RecordOnOpened(t, d, o, inputs);
    OpenedPath(t, d);
    var f := Finish(t, d, inputs, copied);
    NeverBlocked(t.ledger.codec, d, AsReceipts(inputs), o.cursor, t.limit);
    VerdictSameRaw(t, d, f.disk, o, inputs);
  }

  lemma {:induction false} ExtendTells(t: Task, d: Disk, o: Opened, inputs: seq<Input>)
    requires Faithful(t.journals) && Open(t, d) == Some(o) && Frontier(o, inputs) < |t.captured|
    requires Told(Extend(t, d, o, inputs).result)
    ensures var e := Extend(t, d, o, inputs);
            var more := inputs + [NextInput(t, o, inputs)];
            && Holds(t, e.disk, o, more) && Tells(t, e.disk, o, more, e.result) && |more| <= 2
            && t.ledger.path in d && t.ledger.path in e.disk
            && (!e.result.StepRecorded? ==> e.disk[t.ledger.path] == d[t.ledger.path])
  {
    hide Finish, Open, Tells;
    var next := NextInput(t, o, inputs);
    var staged := d[next.name := RangeOf(t, next)];
    var more := inputs + [next];
    var journaled := WithJournal(t, staged, o, more);
    OpenedPath(t, d);
    OpenFrame(t, d, next.name, RangeOf(t, next));
    OpenFrame(t, staged, Journal(o), journaled[Journal(o)]);
    assert ReadsBack(t.journals, Attempt(BindingOf(t, o.cursor, o.seeds), more));
    var copied := if next.name in d then 0 else next.size;
    ExtendIsJournaled(t, d, o, inputs, staged, copied);
    FinishTells(t, journaled, o, more, copied);
  }

  /**
    A call that returns tells what it holds. The journal on the disk it leaves holds one or two
    inputs; the report is their verdict, a retained window is reported as exhausted exactly when
    they are two, and only a recorded step changes the progress file.
   */
  lemma {:induction false} ReportTellsWhatIsHeld(t: Task, d: Disk, o: Opened) returns (inputs: seq<Input>)
    requires Faithful(t.journals) && Open(t, d) == Some(o) && Told(Advance(t, d).result)
    ensures var c := Advance(t, d);
            && Holds(t, c.disk, o, inputs) && 1 <= |inputs| <= 2 && Tells(t, c.disk, o, inputs, c.result)
            && t.ledger.path in d && t.ledger.path in c.disk
            && (!c.result.StepRecorded? ==> c.disk[t.ledger.path] == d[t.ledger.path])
  {
    hide AttemptOk, Extend, Finish, Open, Tells, WantsMore;
    var d' := if Journal(o) in d then d else WithJournal(t, d, o, o.seeds);
    var held := StartInputs(t, d, o).value;
    OpenedPath(t, d);
    if Journal(o) !in d {
      OpenFrame(t, d, Journal(o), d'[Journal(o)]);
      assert ReadsBack(t.journals, Attempt(BindingOf(t, o.cursor, o.seeds), o.seeds));
    }
    assert Holds(t, d', o, held);
    if WantsMore(t, d', o, held) && Frontier(o, held) < |t.captured| {
      inputs := held + [NextInput(t, o, held)];
      ExtendTells(t, d', o, held);
    } else {
      inputs := held;
      FinishTells(t, d', o, held, 0);
    }
  }

  // ----- Rows that never end, and rows that do not link -----

  /** An attempt in a state it can be in, below the tip and the step limit, whose metadata fits. */
  ghost predicate Ready(t: Task, d: Disk, o: Opened, inputs: seq<Input>) {
    && Open(t, d) == Some(o) && o.cursor.offset != t.ledger.extent && |o.history.steps| < MAX_STEPS
    && HeldInputs(t, d, o) == Some(inputs) && AttemptOk(t, o, inputs) && InputsHeld(t, d, inputs)
    && OrphansExact(t, d, o, inputs) && SeedsForeign(o) && |o.seeds| <= 1
    && MetadataFits(t, o)
  }

  /** Every reachable attempt below the tip and the step limit is ready when its metadata fits. */
  lemma {:induction false} ReachableIsReady(t: Task, d: Disk, w: nat) returns (o: Opened, inputs: seq<Input>)
    requires Inv(t, d) && WindowOk(w) && t.ledger.path in d
    ensures Open(At(t, d, w), d) == Some(o)
    ensures o.cursor.offset != t.ledger.extent && |o.history.steps| < MAX_STEPS && MetadataFits(At(t, d, w), o) ==>
              Ready(At(t, d, w), d, o, inputs)
  {
    hide AttemptOk, InputsHeld, KeysAged, KeysOlder, MetadataFits, Open, OrphansExact;
    o, inputs := InOrder(t, d, w);
  }

  /** The cursor is at a row start, with the chain's first hash at the very beginning. */
  predicate AtRow(t: Task, cursor: Cursor) {
    && IsHash(cursor.lastHash) && AtRowStart(t.captured, cursor.offset)
    && (cursor.offset == 0 ==> cursor.sequence == 0 && cursor.lastHash == GENESIS)
  }

  /** The row at the cursor does not end within two windows of what the attempt started with. */
  predicate LongRow(t: Task, o: Opened) {
    && AtRow(t, o.cursor) && o.cursor.offset <= Frontier(o, o.seeds)
    && Frontier(o, o.seeds) + 2 * t.window <= |t.captured|
    && NEWLINE !in t.captured[o.cursor.offset..Frontier(o, o.seeds) + 2 * t.window]
  }

  lemma {:induction false} LongVerdict(t: Task, d: Disk, o: Opened, inputs: seq<Input>)
    requires 1 <= t.limit <= 256 && LongRow(t, o) && InputsHeld(t, d, inputs)
    requires InputsOk(inputs, o.cursor, t.ledger.extent)
    requires inputs[|inputs| - 1].end <= Frontier(o, o.seeds) + 2 * t.window
    ensures VerdictOn(t, d, o, inputs) == NoCompleteRow
  {
    hide FragmentVerdict, Joined, RowDigest;
    var c, src, receipts := t.ledger.codec, t.captured, AsReceipts(inputs);
    var end := inputs[|inputs| - 1].end;
    assert ReceiptsOk(receipts, o.cursor) && PolicyOk(o.cursor, receipts, t.limit);
    VerdictFromSource(c, d, src, receipts, o.cursor, t.limit);
    NoNewlineBefore(src, o.cursor.offset, end, Frontier(o, o.seeds) + 2 * t.window);
  }

  lemma {:induction false} NoNewlineBefore(src: Bytes, from: nat, end: nat, bound: nat)
    requires from <= end <= bound <= |src| && NEWLINE !in src[from..bound]
    ensures FindNewline(src[..end], from) == end
  {
    forall i | from <= i < end ensures src[..end][i] != NEWLINE { assert src[..end][i] == src[from..bound][i - from]; }
  }

  /** Every input the attempt can hold ends within two windows of what it started with. */
  lemma {:induction false} InputsEnd(t: Task, o: Opened, inputs: seq<Input>)
    requires AttemptOk(t, o, inputs) && |o.seeds| <= 1 && inputs != []
    ensures InputsOk(inputs, o.cursor, t.ledger.extent)
    ensures inputs[|inputs| - 1].end <= Frontier(o, o.seeds) + 2 * t.window
    ensures |inputs| < 2 && |inputs| > |o.seeds| ==> inputs[|inputs| - 1].end <= Frontier(o, o.seeds) + t.window
  {
    if |inputs| > |o.seeds| {
      assert StagedInputOk(t, o, inputs, |inputs| - 1);
      if |inputs| == 2 && |o.seeds| == 0 { assert StagedInputOk(t, o, inputs, 0); }
      assert inputs[..0] == [];
    }
    assert |inputs| == |o.seeds| ==> inputs == o.seeds by { assert inputs[..|inputs|] == inputs; }
  }

  /** One call at a long row keeps one window more, and reports it as exhausted from the second on. */
  lemma {:induction false} LongRowCall(t: Task, d: Disk, o: Opened, inputs: seq<Input>) returns (more: seq<Input>)
    requires Faithful(t.journals) && HexRanges(t.ledger.codec, t.captured)
    requires Ready(t, d, o, inputs) && LongRow(t, o)
    ensures var c := Advance(t, d);
            c.result == WindowRetained(|inputs| >= 1) && Ready(t, c.disk, o, more) && |more| == Min(2, |inputs| + 1)
  {
    hide AttemptOk, Finish, HexRanges, InputsHeld, InputsOk, LongRow, MetadataFits, Open, OrphansExact, SeedsForeign, VerdictOn;
    var d' := if Journal(o) in d then d else WithJournal(t, d, o, o.seeds);
    OpenMeansPolicy(t, d);
    ReadyJournal(t, d, o, inputs);
    if inputs != [] { InputsEnd(t, o, inputs); LongVerdict(t, d', o, inputs); }
    if |inputs| == 2 {
      more := inputs;
      LongFinish(t, d', o, inputs, 0);
      assert !WantsMore(t, d', o, inputs);
    } else {
      LongWants(t, d', o, inputs);
      more := inputs + [NextInput(t, o, inputs)];
      LongExtend(t, d', o, inputs);
    }
  }

  /** The call starts from the inputs held, with its journal in place. */
  lemma {:induction false} ReadyJournal(t: Task, d: Disk, o: Opened, inputs: seq<Input>)
    requires Faithful(t.journals) && Ready(t, d, o, inputs)
    ensures var d' := if Journal(o) in d then d else WithJournal(t, d, o, o.seeds);
            && Ready(t, d', o, inputs) && JournalInputs(t, d', o) == Some(inputs)
            && Advance(t, d) == Continue(t, d', o, inputs)
  {
    hide Continue, InputsOk, Open, StagedOk;
    if Journal(o) !in d {
      var d' := WithJournal(t, d, o, o.seeds);
      assert JournalBytesFit(t, o, o.seeds);
      OpenFrame(t, d, Journal(o), d'[Journal(o)]);
      JournalReadsBack(t, d, o, o.seeds);
      RawInputs(t, o, inputs);
      HeldNames(t, d, inputs);
      HeldFrame(t, d, d', o, inputs);
      AdvanceCreates(t, d, o);
    } else {
      AdvanceResumes(t, d, o, inputs);
    }
  }

  lemma {:induction false} AdvanceCreates(t: Task, d: Disk, o: Opened)
    requires Open(t, d) == Some(o) && o.cursor.offset != t.ledger.extent && |o.history.steps| < MAX_STEPS
    requires |t.bindings.dump(BindingOf(t, o.cursor, o.seeds))| <= MAX_METADATA
    requires Journal(o) !in d && JournalFits(t, o, o.seeds) && AttemptOk(t, o, o.seeds)
    ensures Advance(t, d) == Continue(t, WithJournal(t, d, o, o.seeds), o, o.seeds)
  {
    hide AttemptOk, Continue, Open;
    JournalCreated(t, d, o);
  }

  lemma {:induction false} LongFinish(t: Task, d: Disk, o: Opened, inputs: seq<Input>, copied: nat)
    requires Open(t, d) == Some(o) && |o.history.steps| < MAX_STEPS && InputsOk(inputs, o.cursor, t.ledger.extent)
    requires VerdictOn(t, d, o, inputs) == NoCompleteRow
    ensures Finish(t, d, inputs, copied) == Outcome(WindowRetained(|inputs| == 2), d, copied)
  {
    hide Appended, FragmentVerdict, InputsOk, Open, RecordSpec;
    RecordOnOpened(t, d, o, inputs);
    assert AllStaged(AsReceipts(inputs));
  }

  /** With nothing complete held and fewer than two inputs, another window is wanted and there is one. */
  lemma {:induction false} LongWants(t: Task, d: Disk, o: Opened, inputs: seq<Input>)
    requires Ready(t, d, o, inputs) && LongRow(t, o) && |inputs| < 2 && StepPolicyOk(t)
    requires inputs != [] ==> VerdictOn(t, d, o, inputs) == NoCompleteRow
    ensures WantsMore(t, d, o, inputs) && Frontier(o, inputs) + t.window <= |t.captured|
    ensures Continue(t, d, o, inputs) == Extend(t, d, o, inputs)
  {
    hide Extend, Finish, InputsHeld, MetadataFits, Open, OrphansExact, SeedsForeign, VerdictOn;
    if inputs != [] { InputsEnd(t, o, inputs); }
    if |inputs| == 1 && |o.seeds| == 1 { assert inputs[..1] == inputs; }
  }

  lemma {:induction false} LongExtend(t: Task, d: Disk, o: Opened, inputs: seq<Input>)
    requires Faithful(t.journals) && HexRanges(t.ledger.codec, t.captured) && StepPolicyOk(t)
    requires Ready(t, d, o, inputs) && JournalInputs(t, d, o) == Some(inputs) && LongRow(t, o) && |inputs| < 2
    requires WantsMore(t, d, o, inputs) && Frontier(o, inputs) + t.window <= |t.captured|
    ensures var e := Extend(t, d, o, inputs);
            e.result == WindowRetained(|inputs| == 1) && Ready(t, e.disk, o, inputs + [NextInput(t, o, inputs)])
  {
    hide AttemptOk, Finish, HexRanges, InputsHeld, InputsOk, LongRow, Open, SeedsForeign, VerdictOn, WantsMore;
    var next := NextInput(t, o, inputs);
    var more := inputs + [next];
    var staged := d[next.name := RangeOf(t, next)];
    var journaled := WithJournal(t, staged, o, more);
    var copied := if next.name in d then 0 else next.size;
    WindowOnDisk(t, o, d, inputs);
    StagedStaysHeld(t, d, o, inputs);
    AppendedIsHeld(t, staged, journaled, o, inputs);
    assert JournalBytesFit(t, o, more);
    OpenFrame(t, staged, Journal(o), journaled[Journal(o)]);
    JournalReadsBack(t, staged, o, more);
    InputsEnd(t, o, more);
    LongVerdict(t, journaled, o, more);
    LongFinish(t, journaled, o, more, copied);
    ExtendIsJournaled(t, d, o, inputs, staged, copied);
  }

  lemma {:induction false} StagedStaysHeld(t: Task, d: Disk, o: Opened, inputs: seq<Input>)
    requires InputsHeld(t, d, inputs) && Frontier(o, inputs) < |t.captured|
    requires var next := NextInput(t, o, inputs); next.name in d ==> d[next.name] == RangeOf(t, next)
    ensures InputsHeld(t, d[NextInput(t, o, inputs).name := RangeOf(t, NextInput(t, o, inputs))], inputs)
  {
    hide InputsHeld;
    HeldNames(t, d, inputs);
    HeldFrame(t, d, d[NextInput(t, o, inputs).name := RangeOf(t, NextInput(t, o, inputs))], o, inputs);
  }

  /**
    A row that does not end within two windows exhausts the row window: from any state an attempt can
    be in, within two uninterrupted calls, and it is never reported as exhausted with one input held.
   */
  lemma {:induction false} LongRowExhausts(t: Task, d: Disk, o: Opened, inputs: seq<Input>)
    requires Faithful(t.journals) && HexRanges(t.ledger.codec, t.captured)
    requires Ready(t, d, o, inputs) && LongRow(t, o)
    ensures var c := Advance(t, d);
            if inputs == [] then c.result == WindowRetained(false) && Advance(t, c.disk).result == WindowRetained(true)
            else c.result == WindowRetained(true)
  {
    hide Advance, LongRow, Ready;
    var more := LongRowCall(t, d, o, inputs);
    if inputs == [] { var last := LongRowCall(t, Advance(t, d).disk, o, more); }
  }

  /** Rows that do not link are reported as rejected, with the progress file as it was and nothing copied. */
  lemma {:induction false} BrokenRowReported(t: Task, d: Disk, o: Opened, inputs: seq<Input>)
    requires Faithful(t.journals) && Ready(t, d, o, inputs) && inputs != []
    requires FragmentVerdict(t.ledger.codec, d, AsReceipts(inputs), o.cursor, t.limit) == Rejected
    ensures var c := Advance(t, d);
            && c.result == StepNotRecorded(Rejected) && c.copied == 0
            && t.ledger.path in d && t.ledger.path in c.disk && c.disk[t.ledger.path] == d[t.ledger.path]
  {
    hide AttemptOk, FragmentVerdict, InputsHeld, InputsOk, MetadataFits, Open, OrphansExact, RecordSpec, SeedsForeign;
    var d' := if Journal(o) in d then d else WithJournal(t, d, o, o.seeds);
    OpenedPath(t, d);
    ReadyJournal(t, d, o, inputs);
    JournalIsNotRaw(t, d, d', o, inputs);
    OkOf(t, o, inputs);
    RecordOnOpened(t, d', o, inputs);
    assert AllStaged(AsReceipts(inputs));
  }

  lemma {:induction false} OkOf(t: Task, o: Opened, inputs: seq<Input>)
    requires AttemptOk(t, o, inputs) && inputs != []
    ensures InputsOk(inputs, o.cursor, t.ledger.extent)
  {
  }

  lemma {:induction false} JournalIsNotRaw(t: Task, d: Disk, d': Disk, o: Opened, inputs: seq<Input>)
    requires d' == d || (Journal(o) in d' && d' == d[Journal(o) := d'[Journal(o)]])
    ensures VerdictOn(t, d', o, inputs) == VerdictOn(t, d, o, inputs)
  {
    hide VerdictOn;
    VerdictSameRaw(t, d, d', o, inputs);
  }

  // ----- What a step refuses -----

  /** Arguments that are not in order fail. */
  lemma {:induction false} BadArgumentsFail(t: Task, d: Disk)
    requires || !t.ledger.path.ProgressFile? || !IsHash(t.ledger.anchor.lastHash) || !IsHash(t.ledger.evidence)
             || !IsHash(t.pin) || |t.captured| != t.ledger.extent || t.ledger.anchor.offset >= t.ledger.extent
             || !(1 <= t.window <= 1048576) || !(1 <= t.limit <= 256)
    ensures Advance(t, d) == Outcome(StepFailed, d, 0)
  {
    hide Continue, IsHash, StateCursor, ReadHistory;
  }

  /** At the tip there is nothing to do. */
  lemma {:induction false} TipIsReported(t: Task, d: Disk, o: Opened)
    requires Open(t, d) == Some(o) && o.cursor.offset == |t.captured|
    ensures Advance(t, d) == Outcome(TipReached, d, 0)
  {
    hide Continue, Open;
    OpenMeansPolicy(t, d);
  }

  /** A history of 32 steps that is not at the tip, or metadata without room, fails. */
  lemma {:induction false} FullHistoryFails(t: Task, d: Disk, o: Opened)
    requires Open(t, d) == Some(o) && o.cursor.offset != t.ledger.extent
    requires |o.history.steps| == 32 || |t.bindings.dump(BindingOf(t, o.cursor, o.seeds))| > 65536
             || (JournalFile(o.key) !in d
                 && |t.journals.dump(Attempt(BindingOf(t, o.cursor, o.seeds), o.seeds))| > 65536)
    ensures Advance(t, d) == Outcome(StepFailed, d, 0)
  {
    hide Continue, Open, StateCursor;
  }

  /** A file under the next window's name that holds other bytes fails the call and is kept. */
  lemma {:induction false} OtherWindowFails(t: Task, d: Disk, o: Opened, inputs: seq<Input>)
    requires Open(t, d) == Some(o) && o.cursor.offset != t.ledger.extent && |o.history.steps| < 32
    requires |t.bindings.dump(BindingOf(t, o.cursor, o.seeds))| <= 65536
    requires JournalInputs(t, d, o) == Some(inputs) && WantsMore(t, d, o, inputs) && Frontier(o, inputs) < |t.captured|
    requires StageFile(o.key, |inputs|) in d
    requires var from := Frontier(o, inputs);
             d[StageFile(o.key, |inputs|)]
             != t.captured[from..from + (if |t.captured| - from < t.window then |t.captured| - from else t.window)]
    ensures Advance(t, d) == Outcome(StepFailed, d, 0)
  {
    hide AttemptOk, JournalInputs, Open, VerdictOn, WantsMore;
    AdvanceResumes(t, d, o, inputs);
    assert d[StageFile(o.key, |inputs|)] != RangeOf(t, NextInput(t, o, inputs));
  }
}
