/** With rows no longer than the window, every uninterrupted call makes progress. */
module BoundedRows {
  import opened Foundations
  import opened ChainRows
  import opened FragmentedRow
  import opened FragmentProgress
  import opened RecoveryStep
  import opened RetryRefinement

  /** From the cursor to its end the source is a chain of complete rows. */
  ghost predicate ValidTail(c: Codec, src: Bytes, a: Cursor) {
    exists b: Cursor :: Extension(c, src, a, b) && b.offset == |src|
  }

  /** No row at or after `from` is longer than `bound`. */
  ghost predicate RowsWithin(src: Bytes, from: nat, bound: nat) {
    forall p: nat, q: nat :: from <= p && AtRowStart(src, p) && IsLine(src, p, q) ==> q - p <= bound
  }

  /** A prefix of a valid source never breaks a scan. */
  lemma {:induction false} PrefixScansClean(c: Codec, src: Bytes, a: Cursor, b: Cursor, bound: nat, limit: nat)
    requires Extension(c, src, a, b) && b.offset == |src|
    requires a.offset <= bound <= |src|
    ensures ScanRows(c, src[..bound], 0, a, limit).Chained?
    decreases limit
  {
    hide RowDigest;
    var data := src[..bound];
    if limit > 0 && FindNewline(data, a.offset) < bound {
      assert src[..b.offset] == src;
      assert a != b;
      RowOfPrefix(c, src, a, bound);
      var next := NextRow(c, src, 0, a).next;
      assert Extension(c, src, next, b);
      PrefixScansClean(c, src, next, b, bound, limit - 1);
    }
  }

  lemma {:induction false} RowOfPrefix(c: Codec, src: Bytes, a: Cursor, bound: nat)
    requires a.offset <= bound <= |src| && FindNewline(src[..bound], a.offset) < bound
    ensures NextRow(c, src[..bound], 0, a) == NextRow(c, src, 0, a) != Incomplete
  {
    var data := src[..bound];
    NewlineInPrefix(data, src, bound, a.offset);
    var end := FindNewline(data, a.offset);
    assert data[a.offset..end + 1] == src[a.offset..end + 1];
  }

  /** The row at the cursor is complete within the bound. */
  lemma {:induction false} FirstRowFits(c: Codec, src: Bytes, a: Cursor, bound: nat)
    requires ValidTail(c, src, a) && a.offset < |src|
    requires AtRowStart(src, a.offset) && RowsWithin(src, a.offset, bound)
    ensures FindNewline(src, a.offset) < |src| && FindNewline(src, a.offset) + 1 <= a.offset + bound
  {
    var b: Cursor :| Extension(c, src, a, b) && b.offset == |src|;
    assert src[..b.offset] == src;
    var end := FindNewline(src, a.offset);
    assert IsLine(src, a.offset, end + 1);
  }

  /** Inputs that hold their source ranges and reach a window past the cursor, or the end, verify at least one row. */
  lemma {:induction false} CoveringInputsVerify(t: Task, d: Disk, o: Opened, inputs: seq<Input>)
    requires SourceOk(t, o) && 1 <= t.limit <= 256 && o.cursor.offset < |t.captured|
    requires InputsOk(inputs, o.cursor, t.ledger.extent)
    requires InputsHeld(t, d, inputs)
    requires inputs[|inputs| - 1].end >= Min(o.cursor.offset + t.window, |t.captured|)
    ensures VerdictOn(t, d, o, inputs).Verified?
  {
    hide FragmentVerdict, Joined, ScanRows, SourceOk;
    SourceOkPolicy(t, o);
    var receipts := AsReceipts(inputs);
    assert ReceiptsOk(receipts, o.cursor) && PolicyOk(o.cursor, receipts, t.limit);
    VerdictFromSource(t.ledger.codec, d, t.captured, receipts, o.cursor, t.limit);
    CoveringScan(t, o, inputs[|inputs| - 1].end);
  }

  lemma {:induction false} SourceOkPolicy(t: Task, o: Opened)
    requires SourceOk(t, o)
    ensures IsHash(o.cursor.lastHash) && AtRowStart(t.captured, o.cursor.offset)
    ensures o.cursor.offset == 0 ==> o.cursor.sequence == 0 && o.cursor.lastHash == GENESIS
  {
  }

  /** A scan that reaches a window past the cursor, or the end, takes at least one row. */
  lemma {:induction false} CoveringScan(t: Task, o: Opened, end: nat)
    requires SourceOk(t, o) && t.limit >= 1 && o.cursor.offset < |t.captured|
    requires Min(o.cursor.offset + t.window, |t.captured|) <= end <= |t.captured| && o.cursor.offset <= end
    ensures var scan := ScanRows(t.ledger.codec, t.captured[..end], 0, o.cursor, t.limit);
            scan.Chained? && scan.next.sequence > o.cursor.sequence
  {
    hide Extension, RowDigest;
    var c, src := t.ledger.codec, t.captured;
    FirstRowFits(c, src, o.cursor, t.window);
    NewlineInPrefix(src, src[..end], end, o.cursor.offset);
    var b: Cursor :| Extension(c, src, o.cursor, b) && b.offset == |src|;
    PrefixScansClean(c, src, o.cursor, b, end, t.limit);
    RowOfPrefix(c, src, o.cursor, end);
  }

  /** The hypotheses about the source: valid from the cursor, which is a row start, and no row longer than the window. */
  ghost predicate SourceOk(t: Task, o: Opened) {
    && ValidTail(t.ledger.codec, t.captured, o.cursor)
    && AtRowStart(t.captured, o.cursor.offset)
    && RowsWithin(t.captured, o.cursor.offset, t.window)
    && IsHash(o.cursor.lastHash)
    && (o.cursor.offset == 0 ==> o.cursor.sequence == 0 && o.cursor.lastHash == GENESIS)
  }

  /** The inputs' files are there, whole, and hold their source ranges. */
  ghost predicate InputsHeld(t: Task, d: Disk, inputs: seq<Input>) {
    FilesMatch(d, t.captured, inputs) && Joined(t.ledger.codec, d, inputs).Some?
  }

  /** A second input is a full window, or reaches the end. */
  predicate SecondIsWindow(t: Task, inputs: seq<Input>) {
    |inputs| == 2 ==> inputs[1].offset < |t.captured| && inputs[1].size == WindowSize(t, inputs[1].offset)
  }

  /** No seed is a window of this very attempt. */
  predicate SeedsForeign(o: Opened) {
    forall s :: s in o.seeds ==> s.name != StageFile(o.key, |o.seeds|)
  }

  /** A step this attempt could record. */
  predicate StepPossible(t: Task, o: Opened, step: Step) {
    StepOk(step, o.cursor, t.ledger.extent) && AttemptOk(t, o, step.inputs)
  }

  /** The history with any such step added can be stored. */
  ghost predicate HistoryFits(t: Task, o: Opened) {
    forall step: Step :: StepPossible(t, o, step) ==> LongerFits(t, o, step)
  }

  predicate LongerFits(t: Task, o: Opened, step: Step) {
    |t.ledger.doc.dump(LongerHistory(o, step))| <= MAX_METADATA
  }

  lemma {:induction false} VerifiedIsRecordable(t: Task, d: Disk, o: Opened, inputs: seq<Input>)
    requires Open(t, d) == Some(o) && |o.history.steps| < MAX_STEPS
    requires HexRanges(t.ledger.codec, t.captured) && HistoryFits(t, o)
    requires AttemptOk(t, o, inputs) && FilesMatch(d, t.captured, inputs)
    requires InputsOk(inputs, o.cursor, t.ledger.extent) && VerdictOn(t, d, o, inputs).Verified?
    ensures RecordableStep(t, d, o, inputs).Some?
  {
    hide EndCursor, FilesMatch, FragmentVerdict, StagedOk;
    var v := VerdictOn(t, d, o, inputs);
    VerifiedIsExtension(t.ledger.codec, d, t.captured, AsReceipts(inputs), o.cursor, t.limit);
    assert RangeHasHexDigest(t.ledger.codec, t.captured, o.cursor.offset, v.next.offset);
    AppendedIsValid(t.ledger, d, o.history, o.cursor, AsReceipts(inputs), t.limit);
    var step := NewStep(o.cursor, v.next, v.sha, inputs);
    LastStepOk(t.ledger, o.history, step);
    assert StepPossible(t, o, step) && LongerFits(t, o, step);
  }

  lemma {:induction false} LastStepOk(l: Ledger, h: History, step: Step)
    requires StateCursor(l, h.(steps := h.steps + [step])).Some?
    ensures StateCursor(l, h).Some? ==> StepOk(step, StateCursor(l, h).value, l.extent)
  {
    hide StepOk;
    var steps := h.steps + [step];
    assert steps[..|steps| - 1] == h.steps && steps[|steps| - 1] == step;
  }

  /** The window that follows is held once it is on disk. */
  lemma {:induction false} NextIsHeld(t: Task, d: Disk, o: Opened, inputs: seq<Input>)
    requires Frontier(o, inputs) < |t.captured| && |inputs| <= 1
    requires inputs != [] ==> InputsHeld(t, d, inputs) && inputs[0].name != NextInput(t, o, inputs).name
    ensures var next := NextInput(t, o, inputs);
            InputsHeld(t, d[next.name := RangeOf(t, next)], inputs + [next])
  {
    var c := t.ledger.codec;
    var next := NextInput(t, o, inputs);
    var d' := d[next.name := RangeOf(t, next)];
    var more := inputs + [next];
    assert Intact(c, d', next);
    if inputs == [] {
      assert more[1..] == [];
    } else {
      assert more[1..] == [next] && more[1..][1..] == [];
      assert FileMatches(d, t.captured, inputs[0]);
      assert Intact(c, d, inputs[0]) && Intact(c, d', inputs[0]);
      assert Joined(c, d', more[1..]).Some?;
    }
    forall i | 0 <= i < |more| ensures FileMatches(d', t.captured, more[i]) {
      if i < |inputs| { assert FileMatches(d, t.captured, inputs[i]); }
    }
  }

  lemma {:induction false} NextInputsOk(t: Task, o: Opened, inputs: seq<Input>)
    requires HexRanges(t.ledger.codec, t.captured) && StepPolicyOk(t)
    requires Frontier(o, inputs) < |t.captured| && |inputs| <= 1
    requires inputs != [] ==> InputsOk(inputs, o.cursor, t.ledger.extent) && inputs[0].name != NextInput(t, o, inputs).name
    ensures InputsOk(inputs + [NextInput(t, o, inputs)], o.cursor, t.ledger.extent)
  {
    var next := NextInput(t, o, inputs);
    assert RangeHasHexDigest(t.ledger.codec, t.captured, next.offset, next.end);
  }

  /** Every state of a well-supplied attempt leads to a recorded step. */
  lemma {:induction false} PlanExists(t: Task, d: Disk, o: Opened, inputs: seq<Input>)
    requires Open(t, d) == Some(o) && Open32(t, o) && SourceOk(t, o)
    requires HexRanges(t.ledger.codec, t.captured) && HistoryFits(t, o)
    requires AttemptOk(t, o, inputs) && InputsHeld(t, d, inputs) && SecondIsWindow(t, inputs) && SeedsForeign(o)
    ensures PlanStep(t, d, o, inputs).Some?
  {
    hide FragmentVerdict, HexRanges, HistoryFits, Open, RecordableStep, SourceOk;
    OpenMeansPolicy(t, d);
    CursorWithinExtent(t, d);
    if inputs != [] && inputs[|inputs| - 1].end >= Min(o.cursor.offset + t.window, |t.captured|) {
      CoveringInputsVerify(t, d, o, inputs);
      VerifiedIsRecordable(t, d, o, inputs);
    } else if WantsMore(t, d, o, inputs) {
      NextRecords(t, d, o, inputs);
    } else {
      assert |inputs| == 1;
      SourceDecides(t, d, o, inputs);
      VerifiedIsRecordable(t, d, o, inputs);
    }
  }

  lemma {:induction false} SourceDecides(t: Task, d: Disk, o: Opened, inputs: seq<Input>)
    requires SourceOk(t, o) && 1 <= t.limit <= 256
    requires InputsOk(inputs, o.cursor, t.ledger.extent) && InputsHeld(t, d, inputs)
    ensures VerdictOn(t, d, o, inputs) == NoCompleteRow || VerdictOn(t, d, o, inputs).Verified?
  {
    var c, src := t.ledger.codec, t.captured;
    var receipts := AsReceipts(inputs);
    assert ReceiptsOk(receipts, o.cursor) && PolicyOk(o.cursor, receipts, t.limit);
    VerdictFromSource(c, d, src, receipts, o.cursor, t.limit);
    var b: Cursor :| Extension(c, src, o.cursor, b) && b.offset == |src|;
    PrefixScansClean(c, src, o.cursor, b, inputs[|inputs| - 1].end, t.limit);
  }

  lemma {:induction false} NamesDiffer(t: Task, o: Opened, inputs: seq<Input>)
    requires StagedOk(t, o, inputs) && SeedsForeign(o) && |inputs| == 1 && Frontier(o, inputs) < |t.captured|
    ensures inputs[0].name != NextInput(t, o, inputs).name
  {
    if |o.seeds| == 1 {
      assert inputs[0] == o.seeds[0] && o.seeds[0] in o.seeds;
    } else {
      assert StagedInputOk(t, o, inputs, 0);
    }
  }

  lemma {:induction false} NextRecords(t: Task, d: Disk, o: Opened, inputs: seq<Input>)
    requires Open(t, d) == Some(o) && Open32(t, o) && SourceOk(t, o)
    requires HexRanges(t.ledger.codec, t.captured) && HistoryFits(t, o)
    requires AttemptOk(t, o, inputs) && InputsHeld(t, d, inputs) && SeedsForeign(o)
    requires WantsMore(t, d, o, inputs)
    ensures Frontier(o, inputs) < |t.captured|
    ensures var next := NextInput(t, o, inputs);
            VerdictOn(t, d[next.name := RangeOf(t, next)], o, inputs + [next]).Verified?
    ensures PlanStep(t, d, o, inputs).Some?
  {
    hide FragmentVerdict, HexRanges, HistoryFits, InputsHeld, Open, RecordableStep, SourceOk;
    OpenMeansPolicy(t, d);
    CursorWithinExtent(t, d);
    var next := NextInput(t, o, inputs);
    var d' := d[next.name := RangeOf(t, next)];
    var more := inputs + [next];
    if inputs != [] { NamesDiffer(t, o, inputs); }
    NextIsHeld(t, d, o, inputs);
    NextInputsOk(t, o, inputs);
    CoveringInputsVerify(t, d', o, more);
    OpenFrame(t, d, next.name, RangeOf(t, next));
    AppendedAttemptOk(t, o, inputs);
    VerifiedIsRecordable(t, d', o, more);
    assert !WantsMore(t, d', o, more);
  }

  /**
    Progress: below the tip and the step limit, over a valid source whose rows fit the window,
    one uninterrupted call from any state an attempt can be in records at least one row. In
    particular no call ends with the row window exhausted.
   */
  lemma {:induction false} EveryCallRecords(t: Task, d: Disk, o: Opened, inputs: seq<Input>)
    requires Faithful(t.journals) && MetadataFits(t, o) && HistoryFits(t, o) && HexRanges(t.ledger.codec, t.captured)
    requires Open(t, d) == Some(o) && Open32(t, o) && SourceOk(t, o)
    requires HeldInputs(t, d, o) == Some(inputs) && OrphansExact(t, d, o, inputs) && AttemptOk(t, o, inputs)
    requires InputsHeld(t, d, inputs) && SecondIsWindow(t, inputs) && SeedsForeign(o)
    ensures Advance(t, d).result.StepRecorded?
    ensures o.cursor.sequence < Advance(t, d).result.next.sequence <= o.cursor.sequence + t.limit
  {
    PlanExists(t, d, o, inputs);
    var plan := PlanStep(t, d, o, inputs);
    AdvanceFollowsPlan(t, d, o, plan);
    var c := Advance(t, d);
    if !c.result.StepRecorded? {
      var first := NextInput(t, o, []);
      assert FirstWindowTooShort(t, c.disk, o);
      CursorWithinExtent(t, d);
      assert d[first.name := RangeOf(t, first)] == d[first.name := RangeOf(t, first)];
      NextRecords(t, d, o, []);
      FirstWindowSameVerdict(t, d[first.name := RangeOf(t, first)], c.disk, o);
      assert false;
    }
    PlanAdvances(t, d, o, inputs);
  }

  lemma {:induction false} FirstWindowSameVerdict(t: Task, d: Disk, d': Disk, o: Opened)
    requires Frontier(o, []) < |t.captured|
    requires var first := NextInput(t, o, []);
             first.name in d && d[first.name] == RangeOf(t, first)
             && first.name in d' && d'[first.name] == RangeOf(t, first)
    ensures VerdictOn(t, d, o, [NextInput(t, o, [])]) == VerdictOn(t, d', o, [] + [NextInput(t, o, [])])
  {
    assert [] + [NextInput(t, o, [])] == [NextInput(t, o, [])];
    VerdictFrame(t, d, d', o, [NextInput(t, o, [])]);
  }

  /** A planned step takes between one row and the limit. */
  lemma {:induction false} PlanAdvances(t: Task, d: Disk, o: Opened, inputs: seq<Input>)
    requires PlanStep(t, d, o, inputs).Some?
    ensures var step := PlanStep(t, d, o, inputs).value;
            step.start == o.cursor && o.cursor.sequence < step.next.sequence <= o.cursor.sequence + t.limit
    decreases 2 - |inputs|
  {
    if WantsMore(t, d, o, inputs) && Frontier(o, inputs) < |t.captured| {
      var next := NextInput(t, o, inputs);
      PlanAdvances(t, d[next.name := RangeOf(t, next)], o, inputs + [next]);
    } else {
      VerifiedBounds(t.ledger.codec, d, AsReceipts(inputs), o.cursor, t.limit);
    }
  }
}
