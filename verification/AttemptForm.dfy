/** What a recovery step opens under its pin, and which journals are its own, without the program's own checks. */
module AttemptForm {
  import opened Foundations
  import opened ChainRows
  import opened FragmentedRow
  import opened FragmentProgress
  import opened FragmentRollover
  import opened HistoryForm
  import opened RecoveryStep
  import RolloverForm

  predicate GoodTask(t: Task) {
    && t.ledger.path.ProgressFile? && IsHash(t.ledger.anchor.lastHash) && IsHash(t.ledger.evidence) && IsHash(t.pin)
    && |t.captured| == t.ledger.extent && t.ledger.anchor.offset < t.ledger.extent
    && 1 <= t.window <= 1048576 && 1 <= t.limit <= 256
  }

  /** The inputs an attempt starts with: those the last step read past, or in an empty child those its link carries. */
  function StartsWith(t: Task, d: Disk, h: History, cursor: Cursor): Option<seq<Input>> {
    if t.linked && LoadRollover(t.ledger, t.links, d) == None then None
    else if h.steps != [] then Some(RolloverForm.FromCursor(h.steps[|h.steps| - 1].inputs, cursor))
    else if t.linked then LoadRollover(t.ledger, t.links, d)
    else Some([])
  }

  /** An attempt is bound to its pin, cursor, anchor, evidence, extent, window and source, and to what it starts with. */
  function BindingAs(t: Task, o: Opened): Binding {
    Binding(t.pin, o.cursor, t.ledger.anchor, t.ledger.evidence, t.ledger.extent, t.window, t.sourceId, o.seeds)
  }

  /**
    What a call opens: the ledger's own history under the pin, its end, what the attempt starts
    with, and the digest of its binding as the name of its files.
   */
  lemma {:induction false} OpensExactly(t: Task, d: Disk, o: Opened)
    ensures Open(t, d) == Some(o)
       <==> && GoodTask(t) && Finds(t.ledger, d, Some(t.pin), o.history)
            && Bound(t.ledger, o.history) && |o.history.steps| <= 32
            && GoodSteps(o.history.steps, t.ledger.anchor, t.ledger.extent)
            && o.cursor == LastCursor(o.history.steps, t.ledger.anchor)
            && StartsWith(t, d, o.history, o.cursor) == Some(o.seeds)
            && o.key == t.ledger.codec.sha256(t.bindings.dump(BindingAs(t, o)))
  {
    hide StateCursor, GoodSteps, LoadRollover, SuffixOf, RolloverForm.FromCursor;
    HistoryAcceptedExactly(t.ledger, o.history, o.cursor);
    var h := o.history;
    if Bound(t.ledger, h) && h.steps != [] && GoodSteps(h.steps, t.ledger.anchor, t.ledger.extent) {
      LastInputs(h.steps, t.ledger.anchor, t.ledger.extent);
      RolloverForm.SuffixExactly(h.steps[|h.steps| - 1].inputs, o.cursor);
    }
  }

  lemma {:induction false} LastInputs(steps: seq<Step>, anchor: Cursor, extent: nat)
    requires steps != [] && GoodSteps(steps, anchor, extent)
    ensures |steps[|steps| - 1].inputs| <= 2
  {
    assert GoodStepAt(steps, anchor, extent, |steps| - 1);
  }

  /** Input number `i` is the window this attempt would have staged there. */
  predicate OwnWindow(t: Task, o: Opened, inputs: seq<Input>, i: nat)
    requires i < |inputs|
  {
    var from := if i == 0 then o.cursor.offset else inputs[i - 1].end;
    && inputs[i].name == StageFile(o.key, i) && inputs[i].offset == from < |t.captured|
    && inputs[i].size == if |t.captured| - from < t.window then |t.captured| - from else t.window
  }

  /** The attempt's journal is on disk and holds these inputs: what it started with, and its own windows after them. */
  predicate JournalHolds(t: Task, d: Disk, o: Opened, inputs: seq<Input>) {
    && JournalFile(o.key) in d && |d[JournalFile(o.key)]| <= 65536
    && t.journals.load(d[JournalFile(o.key)]) == Some(Attempt(BindingAs(t, o), inputs))
    && |o.seeds| <= |inputs| <= 2 && inputs[..|o.seeds|] == o.seeds
    && (inputs != [] ==> GoodInputs(inputs, o.cursor, t.ledger.extent))
    && forall i :: |o.seeds| <= i < |inputs| ==> OwnWindow(t, o, inputs, i)
  }

  /** A call continues from a journal exactly when it is its own, names, offsets and sizes of all windows included. */
  lemma {:induction false} JournalExactly(t: Task, d: Disk, o: Opened, inputs: seq<Input>)
    ensures JournalInputs(t, d, o) == Some(inputs) <==> JournalHolds(t, d, o, inputs)
  {
    hide GoodInputs, InputsOk;
    if inputs != [] { GoodInputsAreOk(inputs, o.cursor, t.ledger.extent); }
    forall i | |o.seeds| <= i < |inputs| ensures StagedInputOk(t, o, inputs, i) <==> OwnWindow(t, o, inputs, i) {
      if i > 0 { assert inputs[..i][i - 1] == inputs[i - 1]; }
    }
  }

  /** A journal under the attempt's name that is not its own fails the call and is kept. */
  lemma {:induction false} OtherJournalFails(t: Task, d: Disk, o: Opened)
    requires Open(t, d) == Some(o) && o.cursor.offset != t.ledger.extent && JournalFile(o.key) in d
    requires forall inputs: seq<Input> :: !JournalHolds(t, d, o, inputs)
    ensures Advance(t, d) == Outcome(StepFailed, d, 0)
  {
    hide Continue, JournalHolds, JournalInputs, Open;
    if JournalInputs(t, d, o).Some? { JournalExactly(t, d, o, JournalInputs(t, d, o).value); }
  }
}
