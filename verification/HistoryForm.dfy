/**
  Which histories a ledger accepts and which calls append to them, spelled out without the
  program's own checks.
 */
module HistoryForm {
  import opened Foundations
  import opened ChainRows
  import opened FragmentedRow
  import opened FragmentProgress

  predicate GoodInput(r: Input, extent: nat) {
    && IsRawName(r.name) && IsHash(r.sha) && 1 <= r.size <= 1048576
    && r.end == r.offset + r.size <= extent == r.extent
  }

  /** One or two ranges of the capture: the first contains the cursor, the second continues it in another file. */
  predicate GoodInputs(inputs: seq<Input>, cursor: Cursor, extent: nat) {
    && 1 <= |inputs| <= 2 && (forall i :: 0 <= i < |inputs| ==> GoodInput(inputs[i], extent))
    && inputs[0].offset <= cursor.offset < inputs[0].end
    && (|inputs| == 2 ==> inputs[1].offset == inputs[0].end && inputs[1].name != inputs[0].name)
  }

  /** A step of one to 256 rows and at most two mebibytes whose totals are the differences of its cursors. */
  predicate GoodStep(s: Step, extent: nat) {
    && IsHash(s.start.lastHash) && IsHash(s.next.lastHash) && IsHash(s.sha) && GoodInputs(s.inputs, s.start, extent)
    && 1 <= s.records <= 256 && s.next.sequence == s.start.sequence + s.records
    && 1 <= s.bytes <= 2097152 && s.next.offset == s.start.offset + s.bytes
    && s.next.offset <= s.inputs[|s.inputs| - 1].end
  }

  /** The end of a list of steps. */
  function LastCursor(steps: seq<Step>, anchor: Cursor): Cursor {
    if steps == [] then anchor else steps[|steps| - 1].next
  }

  /** Well-formed steps, each starting where the one before it ends, the first at the anchor. */
  predicate GoodSteps(steps: seq<Step>, anchor: Cursor, extent: nat) {
    forall i :: 0 <= i < |steps| ==> GoodStepAt(steps, anchor, extent, i)
  }

  predicate GoodStepAt(steps: seq<Step>, anchor: Cursor, extent: nat, i: nat)
    requires i < |steps|
  {
    GoodStep(steps[i], extent) && steps[i].start == if i == 0 then anchor else steps[i - 1].next
  }

  /** The history carries the ledger's own anchor, evidence and extent. */
  predicate Bound(l: Ledger, h: History) {
    h.anchor == l.anchor && h.evidence == l.evidence && h.extent == l.extent
  }

  lemma {:induction false} GoodInputsAreOk(inputs: seq<Input>, cursor: Cursor, extent: nat)
    ensures GoodInputs(inputs, cursor, extent) <==> InputsOk(inputs, cursor, extent)
  {
    hide IsHash;
    if |inputs| == 2 && InputsOk(inputs, cursor, extent) {
      assert GoodInput(inputs[0], extent) && GoodInput(inputs[1], extent);
    }
    if |inputs| == 2 && GoodInputs(inputs, cursor, extent) {
      assert GoodInput(inputs[0], extent) && GoodInput(inputs[1], extent);
    }
  }

  lemma {:induction false} GoodStepsEnd(steps: seq<Step>, anchor: Cursor, extent: nat)
    ensures EndCursor(steps, anchor, extent)
         == if GoodSteps(steps, anchor, extent) then Some(LastCursor(steps, anchor)) else None
    decreases |steps|
  {
    hide GoodInputs, GoodStep, InputsOk, StepOk;
    if steps != [] {
      var n := |steps| - 1;
      var before := steps[..n];
      GoodStepsEnd(before, anchor, extent);
      StepOkExactly(steps[n], LastCursor(before, anchor), extent);
      if GoodSteps(steps, anchor, extent) {
        forall i | 0 <= i < n ensures GoodStepAt(before, anchor, extent, i) { assert GoodStepAt(steps, anchor, extent, i); }
        assert GoodStepAt(steps, anchor, extent, n);
      } else if GoodSteps(before, anchor, extent) {
        forall i | 0 <= i < n ensures GoodStepAt(steps, anchor, extent, i) { assert GoodStepAt(before, anchor, extent, i); }
        assert !GoodStepAt(steps, anchor, extent, n);
      }
    }
  }

  lemma {:induction false} StepOkExactly(s: Step, cursor: Cursor, extent: nat)
    ensures StepOk(s, cursor, extent) <==> GoodStep(s, extent) && s.start == cursor
  {
    hide GoodInputs, InputsOk, IsHash;
    GoodInputsAreOk(s.inputs, s.start, extent);
    if GoodInputs(s.inputs, s.start, extent) { InputsAreSome(s.inputs, s.start, extent); }
  }

  lemma {:induction false} InputsAreSome(inputs: seq<Input>, cursor: Cursor, extent: nat)
    requires GoodInputs(inputs, cursor, extent)
    ensures inputs != []
  {
  }

  /**
    A ledger accepts exactly the histories bound to its own anchor, evidence and extent that hold at
    most 32 well-formed steps, one after another from the anchor; the cursor is where they end.
   */
  lemma {:induction false} HistoryAcceptedExactly(l: Ledger, h: History, cursor: Cursor)
    ensures StateCursor(l, h) == Some(cursor)
       <==> && Bound(l, h) && |h.steps| <= 32 && IsHash(l.anchor.lastHash)
            && GoodSteps(h.steps, l.anchor, l.extent) && cursor == LastCursor(h.steps, l.anchor)
  {
    hide EndCursor, GoodSteps;
    GoodStepsEnd(h.steps, l.anchor, l.extent);
  }

  // ----- Which calls record -----

  /** The history a call finds: the one its pin names, or for a call without a pin none at all. */
  predicate Finds(l: Ledger, files: Disk, pin: Option<string>, h: History) {
    match pin
    case None => l.path !in files && h == History(l.anchor, l.evidence, l.extent, [])
    case Some(p) =>
      && l.path in files && |files[l.path]| <= 65536 && l.codec.sha256(files[l.path]) == p
      && l.doc.load(files[l.path]) == Some(h)
  }

  predicate GoodArguments(l: Ledger, pin: Option<string>, limit: nat) {
    && l.path.ProgressFile? && IsHash(l.anchor.lastHash) && IsHash(l.evidence) && (pin.Some? ==> IsHash(pin.value))
    && l.anchor.offset < l.extent && 1 <= limit <= 256
  }

  /** The arguments are in order, and the history found is the ledger's, has room, and is continued by the receipts. */
  predicate MayVerify(l: Ledger, files: Disk, receipts: seq<Receipt>, pin: Option<string>, limit: nat, h: History) {
    && GoodArguments(l, pin, limit) && Finds(l, files, pin, h)
    && Bound(l, h) && |h.steps| < 32 && GoodSteps(h.steps, l.anchor, l.extent)
    && (forall r :: r in receipts ==> r.staged)
    && GoodInputs(Inputs(receipts), LastCursor(h.steps, l.anchor), l.extent)
  }

  /** The history with the verified interval appended. */
  function Longer(l: Ledger, h: History, next: Cursor, sha: string, inputs: seq<Input>): History {
    var start := LastCursor(h.steps, l.anchor);
    h.(steps := h.steps + [Step(start, next, if next.sequence < start.sequence then 0 else next.sequence - start.sequence,
                                if next.offset < start.offset then 0 else next.offset - start.offset, sha, inputs)])
  }

  /**
    The call verifies and appends: the fragments verify from the history's end, the digest is
    hexadecimal, and the longer history has room in its file.
   */
  predicate MayRecord(l: Ledger, files: Disk, receipts: seq<Receipt>, pin: Option<string>, limit: nat, h: History,
                      next: Cursor, sha: string) {
    && MayVerify(l, files, receipts, pin, limit, h)
    && FragmentVerdict(l.codec, files, receipts, LastCursor(h.steps, l.anchor), limit) == Verified(next, sha)
    && IsHash(sha) && |l.doc.dump(Longer(l, h, next, sha, Inputs(receipts)))| <= 65536
  }

  lemma {:induction false} FindsReads(l: Ledger, files: Disk, pin: Option<string>, h: History)
    ensures Finds(l, files, pin, h) <==> ReadHistory(l, files, pin) == Some(h)
  {
  }

  /** A call that may verify goes on exactly as its verdict says. */
  lemma {:induction false} VerifiesAs(l: Ledger, files: Disk, receipts: seq<Receipt>, pin: Option<string>, limit: nat, h: History)
    requires MayVerify(l, files, receipts, pin, limit, h)
    ensures var cursor := LastCursor(h.steps, l.anchor);
            && StateCursor(l, h) == Some(cursor) && InputsOk(Inputs(receipts), cursor, l.extent)
            && RecordSpec(l, files, receipts, pin, limit) == RecordVerified(l, files, h, cursor, receipts, limit)
  {
    hide GoodInputs, GoodSteps, InputsOk, RecordVerified, StateCursor;
    HistoryAcceptedExactly(l, h, LastCursor(h.steps, l.anchor));
    FindsReads(l, files, pin, h);
    GoodInputsAreOk(Inputs(receipts), LastCursor(h.steps, l.anchor), l.extent);
  }

  lemma {:induction false} LongerIsStep(l: Ledger, files: Disk, receipts: seq<Receipt>, pin: Option<string>, limit: nat,
                                        h: History, next: Cursor, sha: string)
    requires MayVerify(l, files, receipts, pin, limit, h)
    requires FragmentVerdict(l.codec, files, receipts, LastCursor(h.steps, l.anchor), limit) == Verified(next, sha)
    ensures var cursor := LastCursor(h.steps, l.anchor);
            cursor.offset <= next.offset && cursor.sequence <= next.sequence
            && Longer(l, h, next, sha, Inputs(receipts))
               == h.(steps := h.steps + [NewStep(cursor, next, sha, Inputs(receipts))])
  {
    hide FragmentVerdict, GoodInputs, GoodSteps;
    VerifiedBounds(l.codec, files, receipts, LastCursor(h.steps, l.anchor), limit);
  }

  /** Every call that may record does: it publishes the longer history and returns its pin and cursor. */
  lemma {:induction false} RecordsWhen(l: Ledger, files: Disk, receipts: seq<Receipt>, pin: Option<string>, limit: nat,
                                       h: History, next: Cursor, sha: string)
    requires MayRecord(l, files, receipts, pin, limit, h, next, sha)
    ensures var payload := l.doc.dump(Longer(l, h, next, sha, Inputs(receipts)));
            RecordSpec(l, files, receipts, pin, limit)
            == (FragmentProgress.Recorded(l.codec.sha256(payload), next), files[l.path := payload])
  {
    hide FragmentVerdict, GoodInputs, GoodSteps, InputsOk, IsHash, RecordSpec, StateCursor;
    VerifiesAs(l, files, receipts, pin, limit, h);
    LongerIsStep(l, files, receipts, pin, limit, h, next, sha);
    AppendedIsValid(l, files, h, LastCursor(h.steps, l.anchor), receipts, limit);
  }

  /** A call whose fragments do not verify reports the verdict and leaves the disk alone. */
  lemma {:induction false} ReportsWhen(l: Ledger, files: Disk, receipts: seq<Receipt>, pin: Option<string>, limit: nat, h: History)
    requires MayVerify(l, files, receipts, pin, limit, h)
    requires var v := FragmentVerdict(l.codec, files, receipts, LastCursor(h.steps, l.anchor), limit);
             v == NoCompleteRow || v == Rejected
    ensures RecordSpec(l, files, receipts, pin, limit)
         == (NotRecorded(FragmentVerdict(l.codec, files, receipts, LastCursor(h.steps, l.anchor), limit)), files)
  {
    hide FragmentVerdict, GoodInputs, GoodSteps, InputsOk, RecordSpec, StateCursor;
    VerifiesAs(l, files, receipts, pin, limit, h);
  }

  /** No other call records: a recording call may record, on the history it found. */
  lemma {:induction false} RecordedMeans(l: Ledger, files: Disk, receipts: seq<Receipt>, pin: Option<string>, limit: nat)
      returns (h: History, next: Cursor, sha: string)
    requires RecordSpec(l, files, receipts, pin, limit).0.Recorded?
    ensures MayRecord(l, files, receipts, pin, limit, h, next, sha)
  {
    hide FragmentVerdict, GoodInputs, GoodSteps, InputsOk, IsHash, StateCursor;
    h := ReadHistory(l, files, pin).value;
    var cursor := StateCursor(l, h).value;
    FindsReads(l, files, pin, h);
    HistoryAcceptedExactly(l, h, cursor);
    GoodInputsAreOk(Inputs(receipts), cursor, l.extent);
    var v := FragmentVerdict(l.codec, files, receipts, cursor, limit);
    next, sha := v.next, v.sha;
    LongerIsStep(l, files, receipts, pin, limit, h, next, sha);
    var longer := Longer(l, h, next, sha, Inputs(receipts));
    HistoryAcceptedExactly(l, longer, StateCursor(l, longer).value);
    LastStepHash(longer, l);
  }

  lemma {:induction false} LastStepHash(h: History, l: Ledger)
    requires GoodSteps(h.steps, l.anchor, l.extent) && h.steps != []
    ensures IsHash(h.steps[|h.steps| - 1].sha)
  {
    assert GoodStepAt(h.steps, l.anchor, l.extent, |h.steps| - 1);
  }

  /** A file that was written under another anchor, evidence or extent fails every call, and stays as it is. */
  lemma {:induction false} OtherLedgerFails(l: Ledger, files: Disk, receipts: seq<Receipt>, pin: string, limit: nat, h: History)
    requires l.path in files && l.doc.load(files[l.path]) == Some(h)
    requires h.anchor != l.anchor || h.evidence != l.evidence || h.extent != l.extent
    ensures RecordSpec(l, files, receipts, Some(pin), limit) == (Failed, files)
  {
    hide EndCursor, FragmentVerdict, InputsOk;
  }

  /**
    A recording call's file carries the ledger's own anchor, evidence and extent, before and after,
    and has exactly one step more, which the returned cursor ends.
   */
  lemma {:induction false} RecordedKeepsBinding(l: Ledger, files: Disk, receipts: seq<Receipt>, pin: Option<string>, limit: nat)
      returns (before: History, after: History)
    requires Faithful(l.doc) && RecordSpec(l, files, receipts, pin, limit).0.Recorded?
    ensures var (r, files') := RecordSpec(l, files, receipts, pin, limit);
            && l.path in files' && l.doc.load(files'[l.path]) == Some(after)
            && r.pin == l.codec.sha256(files'[l.path]) && LastCursor(after.steps, l.anchor) == r.next
            && (if pin.Some? then l.path in files && l.doc.load(files[l.path]) == Some(before) else l.path !in files)
    ensures before.anchor == after.anchor == l.anchor && before.evidence == after.evidence == l.evidence
    ensures before.extent == after.extent == l.extent
    ensures |after.steps| == |before.steps| + 1 && after.steps[..|before.steps|] == before.steps
  {
    hide FragmentVerdict, GoodInputs, GoodSteps, IsHash, RecordSpec;
    var h, next, sha := RecordedMeans(l, files, receipts, pin, limit);
    RecordsWhen(l, files, receipts, pin, limit, h, next, sha);
    before, after := h, Longer(l, h, next, sha, Inputs(receipts));
    assert ReadsBack(l.doc, after);
  }
}
