/** The pinned history of verified fragment batches, and the compare-and-swap that appends to it. */
module FragmentProgress {
  import opened Foundations
  import opened ChainRows
  import opened FragmentedRow

  const MAX_STEPS: nat := 32

  datatype Step = Step(start: Cursor, next: Cursor, records: nat, bytes: nat, sha: string, inputs: seq<Input>)

  datatype History = History(anchor: Cursor, evidence: string, extent: nat, steps: seq<Step>)

  /** What stays fixed while one progress file grows. */
  datatype Ledger = Ledger(codec: Codec, doc: Doc<History>, path: Name, anchor: Cursor, evidence: string, extent: nat)

  /** One or two contiguous inputs of the captured extent, the first containing the cursor. */
  predicate InputsOk(inputs: seq<Input>, cursor: Cursor, extent: nat) {
    1 <= |inputs| <= 2
    && RangeOk(inputs[0]) && inputs[0].extent == extent
    && inputs[0].offset <= cursor.offset < inputs[0].end
    && (|inputs| == 2 ==>
          RangeOk(inputs[1]) && inputs[1].extent == extent
          && inputs[1].offset == inputs[0].end && inputs[1].name != inputs[0].name)
  }

  predicate StepOk(s: Step, cursor: Cursor, extent: nat) {
    s.start == cursor && IsHash(s.start.lastHash) && IsHash(s.next.lastHash) && IsHash(s.sha)
    && InputsOk(s.inputs, s.start, extent)
    && 1 <= s.records <= 256 && 1 <= s.bytes <= 2097152
    && s.next.sequence == s.start.sequence + s.records
    && s.next.offset == s.start.offset + s.bytes
    && s.next.offset <= s.inputs[|s.inputs| - 1].end
  }

  /** Where a list of steps ends, if each step starts where the one before it ended. */
  function EndCursor(steps: seq<Step>, anchor: Cursor, extent: nat): Option<Cursor> {
    if steps == [] then Some(anchor)
    else
      var last := steps[|steps| - 1];
      match EndCursor(steps[..|steps| - 1], anchor, extent)
      case Some(cursor) => if StepOk(last, cursor, extent) then Some(last.next) else None
      case None => None
  }

  /** The current cursor of a history that is bound to the ledger; None when reading it raises. */
  function StateCursor(l: Ledger, h: History): Option<Cursor> {
    if h.anchor == l.anchor && h.evidence == l.evidence && h.extent == l.extent
       && |h.steps| <= MAX_STEPS && IsHash(l.anchor.lastHash)
    then EndCursor(h.steps, l.anchor, l.extent)
    else None
  }

  /** The history found under `pin`; no pin stands for a file that must not exist yet. */
  function ReadHistory(l: Ledger, files: Disk, pin: Option<string>): Option<History> {
    match pin
    case None => if l.path in files then None else Some(History(l.anchor, l.evidence, l.extent, []))
    case Some(p) =>
      if l.path in files && |files[l.path]| <= MAX_METADATA && l.codec.sha256(files[l.path]) == p
      then l.doc.load(files[l.path])
      else None
  }

  predicate RecordPolicyOk(l: Ledger, pin: Option<string>, limit: nat) {
    l.path.ProgressFile? && IsHash(l.anchor.lastHash) && IsHash(l.evidence)
    && (pin.Some? ==> IsHash(pin.value))
    && l.anchor.offset < l.extent && 1 <= limit <= 256
  }

  /** Failed: the call raised on what it found. Interrupted: it raised at a guard or in a file operation. */
  datatype RecordResult =
    | Recorded(pin: string, next: Cursor)
    | NotRecorded(verdict: Verdict)
    | Failed
    | Interrupted

  function NewStep(cursor: Cursor, next: Cursor, sha: string, inputs: seq<Input>): Step
    requires cursor.offset <= next.offset && cursor.sequence <= next.sequence
  {
    Step(cursor, next, next.sequence - cursor.sequence, next.offset - cursor.offset, sha, inputs)
  }

  /** Publishing one more step; None when the extended history is refused or too long to store. */
  function Appended(l: Ledger, h: History, step: Step): Option<History> {
    var longer := h.(steps := h.steps + [step]);
    if StateCursor(l, longer).Some? && |l.doc.dump(longer)| <= MAX_METADATA then Some(longer) else None
  }

  /** What one uninterrupted call returns and leaves on disk. */
  function RecordSpec(l: Ledger, files: Disk, receipts: seq<Receipt>, pin: Option<string>, limit: nat)
      : (RecordResult, Disk)
  {
    if !RecordPolicyOk(l, pin, limit) then (Failed, files)
    else
      match ReadHistory(l, files, pin)
      case None => (Failed, files)
      case Some(h) =>
        match StateCursor(l, h)
        case None => (Failed, files)
        case Some(cursor) => RecordVerified(l, files, h, cursor, receipts, limit)
  }

  function RecordVerified(l: Ledger, files: Disk, h: History, cursor: Cursor, receipts: seq<Receipt>, limit: nat)
      : (RecordResult, Disk)
  {
    if |h.steps| >= MAX_STEPS || !AllStaged(receipts) || !InputsOk(Inputs(receipts), cursor, l.extent) then
      (Failed, files)
    else
      match FragmentVerdict(l.codec, files, receipts, cursor, limit)
      case Refused => (Failed, files)
      case Verified(next, sha) =>
        if next.offset < cursor.offset || next.sequence < cursor.sequence then (Failed, files)
        else Publish(l, files, h, NewStep(cursor, next, sha, Inputs(receipts)))
      case v => (NotRecorded(v), files)
  }

  function Publish(l: Ledger, files: Disk, h: History, step: Step): (RecordResult, Disk) {
    match Appended(l, h, step)
    case None => (Failed, files)
    case Some(longer) =>
      var payload := l.doc.dump(longer);
      (Recorded(l.codec.sha256(payload), step.next), files[l.path := payload])
  }

  /** What a call does when nothing stops it is never to be stopped. */
  lemma {:induction false} RecordSpecCompletes(l: Ledger, files: Disk, receipts: seq<Receipt>, pin: Option<string>, limit: nat)
    ensures !RecordSpec(l, files, receipts, pin, limit).0.Interrupted?
  {
  }

  predicate AllStaged(receipts: seq<Receipt>) {
    forall r :: r in receipts ==> r.staged
  }

  // ----- The call itself -----

  method CheckInputs(inputs: seq<Input>, cursor: Cursor, extent: nat) returns (ok: bool)
    ensures ok == InputsOk(inputs, cursor, extent)
  {
    if !(1 <= |inputs| <= 2) { return false; }
    var expected: Option<nat> := None;
    var names: set<Name> := {};
    var i := 0;
    while i < |inputs|
      invariant 0 <= i <= |inputs|
      invariant i == 0 ==> expected == None && names == {}
      invariant i >= 1 ==> expected == Some(inputs[i - 1].end)
      invariant i == 1 ==> names == {inputs[0].name}
      invariant i >= 1 ==> InputsOk(inputs[..i], cursor, extent)
    {
      var item := inputs[i];
      if item.name in names || !RangeOk(item) || item.extent != extent { return false; }
      match expected {
        case None => if !(item.offset <= cursor.offset < item.end) { return false; }
        case Some(end) => if item.offset != end { return false; }
      }
      names := names + {item.name};
      expected := Some(item.end);
      i := i + 1;
    }
    assert inputs[..i] == inputs;
    return true;
  }

  method CheckState(l: Ledger, h: History) returns (end: Option<Cursor>)
    ensures end == StateCursor(l, h)
  {
    if h.anchor != l.anchor || h.evidence != l.evidence || h.extent != l.extent
       || |h.steps| > MAX_STEPS || !IsHash(l.anchor.lastHash) {
      return None;
    }
    var cursor := l.anchor;
    var i := 0;
    while i < |h.steps|
      invariant 0 <= i <= |h.steps|
      invariant EndCursor(h.steps[..i], l.anchor, l.extent) == Some(cursor)
    {
      assert h.steps[..i + 1][..i] == h.steps[..i];
      if !StepOk(h.steps[i], cursor, l.extent) {
        RefusedStaysRefused(h.steps, i + 1, l.anchor, l.extent);
        return None;
      }
      cursor := h.steps[i].next;
      i := i + 1;
    }
    assert h.steps[..i] == h.steps;
    return Some(cursor);
  }

  lemma {:induction false} RefusedStaysRefused(steps: seq<Step>, n: nat, anchor: Cursor, extent: nat)
    requires n <= |steps| && EndCursor(steps[..n], anchor, extent) == None
    ensures EndCursor(steps, anchor, extent) == None
    decreases |steps| - n
  {
    if n < |steps| {
      assert steps[..n + 1][..n] == steps[..n];
      RefusedStaysRefused(steps, n + 1, anchor, extent);
    } else {
      assert steps[..n] == steps;
    }
  }

  /**
    One call. Whatever stops it, the file is either untouched or holds the one step the call
    was making; and without an interruption the outcome is exactly the specified one.
   */
  method RecordFragmentStep(store: Store, l: Ledger, receipts: seq<Receipt>, pin: Option<string>, limit: nat, quiet: bool)
      returns (r: RecordResult)
    modifies store
    ensures quiet && SegmentLock !in old(store.locks) ==>
              (r, store.files) == RecordSpec(l, old(store.files), receipts, pin, limit)
    ensures store.locks == old(store.locks)
    ensures store.files == old(store.files)
         || store.files == RecordSpec(l, old(store.files), receipts, pin, limit).1
    ensures r.Failed? || r.NotRecorded? ==> store.files == old(store.files)
    ensures SegmentLock in old(store.locks) ==> (r.Failed? || r.Interrupted?) && store.files == old(store.files)
    ensures SegmentLock !in old(store.locks) && !r.Interrupted? && r != NotRecorded(Blocked) ==>
              (r, store.files) == RecordSpec(l, old(store.files), receipts, pin, limit)
  {
    if !RecordPolicyOk(l, pin, limit) { return Failed; }
    if !quiet { if * { return Interrupted; } }
    if SegmentLock in store.locks { return Failed; }
    store.locks := store.locks + {SegmentLock};
    r := RecordLocked(store, l, receipts, pin, limit, quiet);
    store.locks := store.locks - {SegmentLock};
  }

  method RecordLocked(store: Store, l: Ledger, receipts: seq<Receipt>, pin: Option<string>, limit: nat, quiet: bool)
      returns (r: RecordResult)
    requires RecordPolicyOk(l, pin, limit)
    modifies store`files
    ensures quiet ==> (r, store.files) == RecordSpec(l, old(store.files), receipts, pin, limit)
    ensures store.files == old(store.files)
         || store.files == RecordSpec(l, old(store.files), receipts, pin, limit).1
    ensures r.Failed? || r.NotRecorded? ==> store.files == old(store.files)
    ensures !r.Interrupted? && r != NotRecorded(Blocked) ==>
              (r, store.files) == RecordSpec(l, old(store.files), receipts, pin, limit)
  {
    hide FragmentVerdict, StateCursor, ReadHistory;
    var read := ReadHistory(l, store.files, pin);
    if read.None? { return Failed; }
    var h := read.value;
    var end := CheckState(l, h);
    if end.None? { return Failed; }
    var cursor := end.value;
    if |h.steps| >= MAX_STEPS || !AllStaged(receipts) { return Failed; }
    var inputsOk := CheckInputs(Inputs(receipts), cursor, l.extent);
    if !inputsOk { return Failed; }
    if !quiet { if * { return Interrupted; } }
    var v := VerifyFragmentedRow(l.codec, store.files, receipts, cursor, limit, quiet);
    match v
    case Refused => return Failed;
    case Verified(next, sha) =>
      if next.offset < cursor.offset || next.sequence < cursor.sequence { return Failed; }
      var step := NewStep(cursor, next, sha, Inputs(receipts));
      var longer := h.(steps := h.steps + [step]);
      var checked := CheckState(l, longer);
      if checked.None? { return Failed; }
      var payload := l.doc.dump(longer);
      if |payload| > MAX_METADATA { return Failed; }
      if !quiet { if * { return Interrupted; } }
      store.files := store.files[l.path := payload];
      if !quiet { if * { return Interrupted; } }
      return Recorded(l.codec.sha256(payload), next);
    case _ => return NotRecorded(v);
  }

  // ----- What a recorded history certifies -----

  lemma {:induction false} ScanGivesHash(c: Codec, data: Bytes, base: nat, cur: Cursor, limit: nat)
    requires base <= cur.offset <= base + |data|
    requires ScanRows(c, data, base, cur, limit).Chained? && IsHash(cur.lastHash)
    ensures IsHash(ScanRows(c, data, base, cur, limit).next.lastHash)
    decreases limit
  {
    if limit > 0 {
      var row := NextRow(c, data, base, cur);
      if row.Linked? { ScanGivesHash(c, data, base, row.next, limit - 1); }
    }
  }

  lemma {:induction false} JoinedLength(c: Codec, files: Disk, receipts: seq<Receipt>, cursor: Cursor)
    requires ReceiptsOk(receipts, cursor) && Joined(c, files, Inputs(receipts)).Some?
    ensures |Joined(c, files, Inputs(receipts)).value|
         == receipts[|receipts| - 1].input.end - receipts[0].input.offset
  {
    var inputs := Inputs(receipts);
    if |inputs| == 2 {
      assert inputs[1..] == [inputs[1]] && inputs[1..][1..] == [];
      assert Joined(c, files, inputs[1..]) == Some(files[inputs[1].name] + []);
    } else {
      assert inputs[1..] == [];
    }
  }

  lemma {:induction false} VerifiedBounds(c: Codec, files: Disk, receipts: seq<Receipt>, cursor: Cursor, limit: nat)
    requires FragmentVerdict(c, files, receipts, cursor, limit).Verified?
    ensures var next := FragmentVerdict(c, files, receipts, cursor, limit).next;
            cursor.offset < next.offset <= receipts[|receipts| - 1].input.end
            && cursor.sequence < next.sequence <= cursor.sequence + limit
            && IsHash(next.lastHash)
  {
    JoinedLength(c, files, receipts, cursor);
    var data := Joined(c, files, Inputs(receipts)).value[cursor.offset - receipts[0].input.offset..];
    ScanGivesHash(c, data, cursor.offset, cursor, limit);
  }

  /** The check repeated after appending never refuses: a verified step always extends the history. */
  lemma {:induction false} AppendedIsValid(l: Ledger, files: Disk, h: History, cursor: Cursor,
                                           receipts: seq<Receipt>, limit: nat)
    requires StateCursor(l, h) == Some(cursor) && |h.steps| < MAX_STEPS
    requires InputsOk(Inputs(receipts), cursor, l.extent)
    requires FragmentVerdict(l.codec, files, receipts, cursor, limit).Verified?
    requires IsHash(FragmentVerdict(l.codec, files, receipts, cursor, limit).sha)
    ensures var v := FragmentVerdict(l.codec, files, receipts, cursor, limit);
            cursor.offset <= v.next.offset && cursor.sequence <= v.next.sequence
            && StateCursor(l, h.(steps := h.steps + [NewStep(cursor, v.next, v.sha, Inputs(receipts))])) == Some(v.next)
  {
    hide ScanRows;
    VerifiedBounds(l.codec, files, receipts, cursor, limit);
    var v := FragmentVerdict(l.codec, files, receipts, cursor, limit);
    var step := NewStep(cursor, v.next, v.sha, Inputs(receipts));
    var steps := h.steps + [step];
    assert steps[..|steps| - 1] == h.steps;
    CursorIsHash(h.steps, l.anchor, l.extent);
  }

  lemma {:induction false} CursorIsHash(steps: seq<Step>, anchor: Cursor, extent: nat)
    requires IsHash(anchor.lastHash) && EndCursor(steps, anchor, extent).Some?
    ensures IsHash(EndCursor(steps, anchor, extent).value.lastHash)
  {
  }

  /** A step is sound when its interval of the source is a chain extension with the recorded digest. */
  predicate StepSound(c: Codec, src: Bytes, s: Step) {
    Extension(c, src, s.start, s.next) && s.sha == c.sha256(src[s.start.offset..s.next.offset])
  }

  predicate StepsSound(c: Codec, src: Bytes, steps: seq<Step>) {
    forall i :: 0 <= i < |steps| ==> StepSound(c, src, steps[i])
  }

  /** Sound steps add up: one pass from the anchor reaches the current cursor. */
  lemma {:induction false} StepsCertify(c: Codec, src: Bytes, steps: seq<Step>, anchor: Cursor, extent: nat)
    requires StepsSound(c, src, steps) && anchor.offset <= |src|
    requires EndCursor(steps, anchor, extent).Some?
    ensures Extension(c, src, anchor, EndCursor(steps, anchor, extent).value)
    decreases |steps|
  {
    if steps == [] {
      ExtensionOfSelf(c, src, anchor);
    } else {
      var prior := steps[..|steps| - 1];
      var last := steps[|steps| - 1];
      StepsCertify(c, src, prior, anchor, extent);
      ExtensionsCompose(c, src, anchor, last.start, last.next);
    }
  }

  /** A recorded step is sound when the fragments it was verified on hold their source ranges. */
  lemma {:induction false} RecordedStepSound(l: Ledger, files: Disk, src: Bytes, receipts: seq<Receipt>,
                                             pin: Option<string>, limit: nat)
    requires Faithful(l.doc)
    requires FilesMatch(files, src, Inputs(receipts))
    requires RecordSpec(l, files, receipts, pin, limit).0.Recorded?
    ensures var (r, files') := RecordSpec(l, files, receipts, pin, limit);
            ReadHistory(l, files, pin).Some? && l.path in files' &&
            var h := ReadHistory(l, files, pin).value;
            StateCursor(l, h).Some? && |h.steps| < MAX_STEPS &&
            exists step: Step ::
              l.doc.load(files'[l.path]) == Some(h.(steps := h.steps + [step]))
              && StateCursor(l, h.(steps := h.steps + [step])) == Some(r.next)
              && StepSound(l.codec, src, step) && step.start == StateCursor(l, h).value && step.next == r.next
              && r.pin == l.codec.sha256(files'[l.path])
  {
    var h := ReadHistory(l, files, pin).value;
    var cursor := StateCursor(l, h).value;
    VerifiedIsExtension(l.codec, files, src, receipts, cursor, limit);
    var v := FragmentVerdict(l.codec, files, receipts, cursor, limit);
    var step := NewStep(cursor, v.next, v.sha, Inputs(receipts));
    var longer := h.(steps := h.steps + [step]);
    assert Appended(l, h, step) == Some(longer);
    assert ReadsBack(l.doc, longer);
    assert longer.steps[..|longer.steps| - 1] == h.steps;
  }
}
