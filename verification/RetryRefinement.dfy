/**
  Interrupting a recovery step anywhere, any number of times, changes nothing about what it
  eventually records.
 */
module RetryRefinement {
  import opened Foundations
  import opened ChainRows
  import opened FragmentedRow
  import opened FragmentProgress
  import opened RecoveryStep

  /** The step these inputs would record now, if they verify and the longer history can be published. */
  function RecordableStep(t: Task, d: Disk, o: Opened, inputs: seq<Input>): Option<Step> {
    if inputs == [] || !InputsOk(inputs, o.cursor, t.ledger.extent) then None
    else
      match VerdictOn(t, d, o, inputs)
      case Verified(next, sha) =>
        if next.offset < o.cursor.offset || next.sequence < o.cursor.sequence then None
        else
          var step := NewStep(o.cursor, next, sha, inputs);
          if Appended(t.ledger, o.history, step).Some? then Some(step) else None
      case _ => None
  }

  /**
    The step uninterrupted work from these inputs leads to: windows are added in order, each
    exactly its source range, until a row is complete or no window may follow. It mentions no
    journal and no call.
   */
  function PlanStep(t: Task, d: Disk, o: Opened, inputs: seq<Input>): Option<Step>
    decreases 2 - |inputs|
  {
    if WantsMore(t, d, o, inputs) && Frontier(o, inputs) < |t.captured| then
      var next := NextInput(t, o, inputs);
      PlanStep(t, d[next.name := RangeOf(t, next)], o, inputs + [next])
    else RecordableStep(t, d, o, inputs)
  }

  /** The inputs the attempt holds: its journal's, or its seeds before there is a journal. */
  function HeldInputs(t: Task, d: Disk, o: Opened): Option<seq<Input>> {
    if Journal(o) in d then JournalInputs(t, d, o) else Some(o.seeds)
  }

  /** Of the windows not yet journaled, at most the very next one is on disk, and exactly. */
  ghost predicate OrphansExact(t: Task, d: Disk, o: Opened, inputs: seq<Input>) {
    forall i: nat :: |inputs| <= i && StageFile(o.key, i) in d ==>
      i == |inputs| && Frontier(o, inputs) < |t.captured|
      && d[StageFile(o.key, i)] == RangeOf(t, NextInput(t, o, inputs))
  }

  /** The pinned history is in place and the attempt is somewhere on the way to `plan`. */
  ghost predicate Working(t: Task, d: Disk, o: Opened, plan: Option<Step>) {
    Open(t, d) == Some(o)
    && match HeldInputs(t, d, o)
       case None => false
       case Some(inputs) => OrphansExact(t, d, o, inputs) && PlanStep(t, d, o, inputs) == plan
  }

  function LongerHistory(o: Opened, step: Step): History {
    o.history.(steps := o.history.steps + [step])
  }

  /** The step has been recorded: the progress file is the pinned history with that one step more. */
  predicate Published(t: Task, d: Disk, o: Opened, plan: Option<Step>) {
    plan.Some? && t.ledger.path in d && d[t.ledger.path] == t.ledger.doc.dump(LongerHistory(o, plan.value))
  }

  /** No call under this pin has left a file yet. */
  ghost predicate FreshPin(t: Task, d: Disk, o: Opened) {
    Open(t, d) == Some(o) && Journal(o) !in d && forall i: nat :: StageFile(o.key, i) !in d
  }

  /** A first call on a fresh pin starts on the way to its plan. */
  lemma {:induction false} FreshIsWorking(t: Task, d: Disk, o: Opened)
    requires FreshPin(t, d, o)
    ensures Working(t, d, o, PlanStep(t, d, o, o.seeds))
  {
  }

  // ----- PlanStep reads only raw files -----

  ghost predicate SameRaw(d: Disk, d': Disk) {
    forall n: Name :: IsRawName(n) ==> (n in d <==> n in d') && (n in d ==> d[n] == d'[n])
  }

  lemma {:induction false} VerdictSameRaw(t: Task, d: Disk, d': Disk, o: Opened, inputs: seq<Input>)
    requires SameRaw(d, d')
    ensures VerdictOn(t, d, o, inputs) == VerdictOn(t, d', o, inputs)
  {
    var v, v' := VerdictOn(t, d, o, inputs), VerdictOn(t, d', o, inputs);
    if v == NoCompleteRow || v.Verified? {
      VerdictNeedsFiles(t, d, o, inputs);
      VerdictFrame(t, d, d', o, inputs);
    } else if v' == NoCompleteRow || v'.Verified? {
      VerdictNeedsFiles(t, d', o, inputs);
      VerdictFrame(t, d', d, o, inputs);
    }
  }

  lemma {:induction false} PlanSameRaw(t: Task, d: Disk, d': Disk, o: Opened, inputs: seq<Input>)
    requires SameRaw(d, d')
    ensures PlanStep(t, d, o, inputs) == PlanStep(t, d', o, inputs)
    decreases 2 - |inputs|
  {
    VerdictSameRaw(t, d, d', o, inputs);
    if WantsMore(t, d, o, inputs) && Frontier(o, inputs) < |t.captured| {
      var next := NextInput(t, o, inputs);
      PlanSameRaw(t, d[next.name := RangeOf(t, next)], d'[next.name := RangeOf(t, next)], o, inputs + [next]);
    }
  }

  // ----- Every action keeps the plan -----

  lemma {:induction false} CreateKeepsPlan(t: Task, d: Disk, d': Disk, o: Opened, plan: Option<Step>)
    requires Faithful(t.journals) && Working(t, d, o, plan) && CreatesJournal(t, o, d, d')
    requires JournalInputs(t, d', o).Some?
    ensures Working(t, d', o, plan)
  {
    OpenFrame(t, d, Journal(o), d'[Journal(o)]);
    assert ReadsBack(t.journals, Attempt(BindingOf(t, o.cursor, o.seeds), o.seeds));
    PlanSameRaw(t, d, d', o, o.seeds);
  }

  lemma {:induction false} StageKeepsPlan(t: Task, d: Disk, d': Disk, o: Opened, plan: Option<Step>)
    requires Working(t, d, o, plan) && StagesWindow(t, o, d, d')
    ensures Working(t, d', o, plan)
  {
    hide Open, VerdictOn, StagedOk;
    var inputs := JournalInputs(t, d, o).value;
    var next := NextInput(t, o, inputs);
    WindowOnDisk(t, o, d, inputs);
    assert d'[next.name := RangeOf(t, next)] == d';
  }

  lemma {:induction false} AppendKeepsPlan(t: Task, d: Disk, d': Disk, o: Opened, plan: Option<Step>)
    requires Faithful(t.journals) && Working(t, d, o, plan) && AppendsInput(t, o, d, d')
    ensures Working(t, d', o, plan) || (Open(t, d') == Some(o) && JournalInputs(t, d', o) == None)
  {
    hide FragmentVerdict, InputsOk, Open, RecordableStep, StagedInputOk;
    var inputs := JournalInputs(t, d, o).value;
    var next := NextInput(t, o, inputs);
    OpenFrame(t, d, Journal(o), d'[Journal(o)]);
    assert d[next.name := RangeOf(t, next)] == d;
    assert ReadsBack(t.journals, Attempt(BindingOf(t, o.cursor, o.seeds), inputs + [next]));
    PlanSameRaw(t, d, d', o, inputs + [next]);
  }

  /** Recording on the way to a plan records that plan. */
  lemma {:induction false} RecordFollowsPlan(t: Task, d: Disk, o: Opened, inputs: seq<Input>)
    requires Open(t, d) == Some(o) && inputs != []
    requires RecordSpec(t.ledger, d, AsReceipts(inputs), Some(t.pin), t.limit).0.Recorded?
    ensures var d' := RecordSpec(t.ledger, d, AsReceipts(inputs), Some(t.pin), t.limit).1;
            var plan := PlanStep(t, d, o, inputs);
            Published(t, d', o, plan) && d' == d[t.ledger.path := d'[t.ledger.path]]
  {
    RecordOnOpened(t, d, o, inputs);
    assert !WantsMore(t, d, o, inputs);
  }

  /** The journal is refused for good: no action is possible any more under this pin. */
  predicate Stuck(t: Task, d: Disk, o: Opened) {
    Open(t, d) == Some(o) && Journal(o) in d && JournalInputs(t, d, o) == None
  }

  ghost predicate OnTheWay(t: Task, d: Disk, o: Opened, plan: Option<Step>) {
    Working(t, d, o, plan) || Stuck(t, d, o) || Published(t, d, o, plan)
  }

  lemma {:induction false} ActionKeepsPlan(t: Task, d: Disk, d': Disk, o: Opened, plan: Option<Step>)
    requires Faithful(t.journals) && Working(t, d, o, plan) && Action(t, d, d')
    ensures Working(t, d', o, plan) || Stuck(t, d', o) || Published(t, d', o, plan)
  {
    if CreatesJournal(t, o, d, d') {
      OpenFrame(t, d, Journal(o), d'[Journal(o)]);
      if JournalInputs(t, d', o).Some? { CreateKeepsPlan(t, d, d', o, plan); }
    } else if StagesWindow(t, o, d, d') {
      StageKeepsPlan(t, d, d', o, plan);
    } else if AppendsInput(t, o, d, d') {
      AppendKeepsPlan(t, d, d', o, plan);
    } else {
      RecordFollowsPlan(t, d, o, JournalInputs(t, d, o).value);
    }
  }

  /** Once the step is published the old pin finds nothing: no action is possible under it. */
  lemma {:induction false} OldPinIsDead(t: Task, d: Disk, d': Disk, o: Opened, plan: Option<Step>)
    requires CollisionFree(t.ledger.codec) && Faithful(t.ledger.doc)
    requires Open(t, d) == Some(o) && Published(t, d', o, plan)
    ensures Open(t, d') == None
    ensures Advance(t, d') == Outcome(StepFailed, d', 0)
  {
    assert ReadsBack(t.ledger.doc, LongerHistory(o, plan.value));
    if Open(t, d').Some? {
      PinFixesBytes(t, d, d');
      assert false;
    }
  }

  /** A pin names one content of the progress file. */
  lemma {:induction false} PinFixesBytes(t: Task, d: Disk, d': Disk)
    requires CollisionFree(t.ledger.codec) && Open(t, d).Some? && Open(t, d').Some?
    ensures t.ledger.path in d && t.ledger.path in d' && d'[t.ledger.path] == d[t.ledger.path]
  {
    assert Distinguishes(t.ledger.codec, d[t.ledger.path], d'[t.ledger.path]);
  }

  /** On the way to the plan, and the progress file untouched unless the plan is published. */
  ghost predicate OnTrack(t: Task, first: Disk, d: Disk, o: Opened, plan: Option<Step>) {
    OnTheWay(t, d, o, plan)
    && (!Published(t, d, o, plan) ==>
          t.ledger.path in first && t.ledger.path in d && d[t.ledger.path] == first[t.ledger.path])
  }

  lemma {:induction false} ActionStaysOnTrack(t: Task, first: Disk, d: Disk, d': Disk, o: Opened, plan: Option<Step>)
    requires Faithful(t.journals) && Faithful(t.ledger.doc) && CollisionFree(t.ledger.codec)
    requires Open(t, first) == Some(o) && OnTrack(t, first, d, o, plan) && Action(t, d, d')
    ensures OnTrack(t, first, d', o, plan)
  {
    if Published(t, d, o, plan) {
      OldPinIsDead(t, first, d, o, plan);
    } else if Working(t, d, o, plan) {
      ActionKeepsPlan(t, d, d', o, plan);
      SamePinSameBytes(t, first, d', o, plan);
    } else {
      StuckHasNoAction(t, d, d', o);
    }
  }

  lemma {:induction false} StartsOnTrack(t: Task, d: Disk, o: Opened, plan: Option<Step>)
    requires Working(t, d, o, plan)
    ensures OnTrack(t, d, d, o, plan)
  {
    hide PlanStep;
  }

  /**
    Retry refinement. In any run of calls on one pin, each interrupted anywhere or not at all,
    every durable disk either still has the pinned history or has exactly one more step, and that
    step is the plan of the first disk. The step can be recorded once only.
   */
  lemma {:induction false} RetryRefines(t: Task, ds: seq<Disk>, o: Opened, plan: Option<Step>)
    requires Faithful(t.journals) && Faithful(t.ledger.doc) && CollisionFree(t.ledger.codec)
    requires DurableRun(t, ds) && Working(t, ds[0], o, plan)
    ensures OnTrack(t, ds[0], ds[|ds| - 1], o, plan)
    decreases |ds|
  {
    hide Action, CollisionFree, DurableStep, Faithful, HeldInputs, OnTrack, OrphansExact, PlanStep;
    StartsOnTrack(t, ds[0], o, plan);
    if |ds| > 1 {
      var n := |ds| - 1;
      RunPrefix(t, ds);
      RetryRefines(t, ds[..n], o, plan);
      if ds[n] != ds[n - 1] { ActionStaysOnTrack(t, ds[0], ds[n - 1], ds[n], o, plan); }
    }
  }

  lemma {:induction false} RunPrefix(t: Task, ds: seq<Disk>)
    requires DurableRun(t, ds) && |ds| > 1
    ensures DurableRun(t, ds[..|ds| - 1])
    ensures ds[|ds| - 1] == ds[|ds| - 2] || Action(t, ds[|ds| - 2], ds[|ds| - 1])
  {
    hide Action;
    assert DurableStep(t, ds, |ds| - 2);
    var before := ds[..|ds| - 1];
    forall i | 0 <= i < |before| - 1 ensures DurableStep(t, before, i) {
      assert DurableStep(t, ds, i);
    }
  }

  lemma {:induction false} StuckHasNoAction(t: Task, d: Disk, d': Disk, o: Opened)
    requires Stuck(t, d, o)
    ensures !Action(t, d, d')
  {
    hide JournalInputs, Open;
  }

  lemma {:induction false} SamePinSameBytes(t: Task, d: Disk, d': Disk, o: Opened, plan: Option<Step>)
    requires CollisionFree(t.ledger.codec) && Open(t, d) == Some(o)
    requires Working(t, d', o, plan) || Stuck(t, d', o) || Published(t, d', o, plan)
    ensures !Published(t, d', o, plan) ==> d'[t.ledger.path] == d[t.ledger.path]
  {
    if !Published(t, d', o, plan) { PinFixesBytes(t, d, d'); }
  }

  // ----- What uninterrupted calls do -----

  ghost predicate MetadataFits(t: Task, o: Opened) {
    |t.bindings.dump(BindingOf(t, o.cursor, o.seeds))| <= 65536
    && forall inputs: seq<Input> :: AttemptOk(t, o, inputs) ==> JournalBytesFit(t, o, inputs)
  }

  predicate JournalBytesFit(t: Task, o: Opened, inputs: seq<Input>) {
    |t.journals.dump(Attempt(BindingOf(t, o.cursor, o.seeds), inputs))| <= 65536
  }

  predicate Open32(t: Task, o: Opened) {
    o.cursor.offset != t.ledger.extent && |o.history.steps| < MAX_STEPS
  }

  /** With a recordable plan at hand, recording the held inputs records it. */
  lemma {:induction false} FinishRecordsPlan(t: Task, d: Disk, o: Opened, inputs: seq<Input>, copied: nat)
    requires Open(t, d) == Some(o) && Open32(t, o) && inputs != []
    requires RecordableStep(t, d, o, inputs).Some?
    ensures var f := Finish(t, d, inputs, copied);
            f.result.StepRecorded? && Published(t, f.disk, o, RecordableStep(t, d, o, inputs))
            && f.result.next == RecordableStep(t, d, o, inputs).value.next
            && f.result.pin == t.ledger.codec.sha256(f.disk[t.ledger.path])
  {
    RecordOnOpened(t, d, o, inputs);
    assert AllStaged(AsReceipts(inputs));
  }

  /** The call has recorded the plan, or it held no inputs and has stopped after its first window. */
  ghost predicate CallFollowsPlan(t: Task, o: Opened, inputs: seq<Input>, plan: Option<Step>, c: Outcome) {
    || (c.result.StepRecorded? && Published(t, c.disk, o, plan) && c.result.next == plan.value.next
        && c.result.pin == t.ledger.codec.sha256(c.disk[t.ledger.path]))
    || (inputs == [] && c.result == WindowRetained(false) && Working(t, c.disk, o, plan)
        && Frontier(o, []) < |t.captured| && HeldInputs(t, c.disk, o) == Some([NextInput(t, o, [])])
        && Journal(o) in c.disk && FirstWindowTooShort(t, c.disk, o))
  }

  /** The first window is on disk exactly, and no row that starts at the cursor is complete in it. */
  predicate FirstWindowTooShort(t: Task, d: Disk, o: Opened)
    requires Frontier(o, []) < |t.captured|
  {
    var first := NextInput(t, o, []);
    first.name in d && d[first.name] == RangeOf(t, first) && VerdictOn(t, d, o, [first]) == NoCompleteRow
  }

  /** One call either records the plan or, from an attempt with no inputs, stops after its first window. */
  lemma {:induction false} ContinueFollowsPlan(t: Task, d: Disk, o: Opened, inputs: seq<Input>)
    requires Faithful(t.journals) && MetadataFits(t, o) && |t.captured| == t.ledger.extent
    requires Open(t, d) == Some(o) && Open32(t, o) && JournalInputs(t, d, o) == Some(inputs)
    requires OrphansExact(t, d, o, inputs) && PlanStep(t, d, o, inputs).Some?
    ensures var c := Continue(t, d, o, inputs);
            var plan := PlanStep(t, d, o, inputs);
            CallFollowsPlan(t, o, inputs, plan, c)
  {
    if WantsMore(t, d, o, inputs) && Frontier(o, inputs) < |t.captured| {
      if inputs != [] { RetainedMeansIncomplete(t, d, o, inputs, 0); }
      ExtendFollowsPlan(t, d, o, inputs);
    } else {
      assert inputs != [];
      FinishRecordsPlan(t, d, o, inputs, 0);
    }
  }

  lemma {:induction false} ExtendFollowsPlan(t: Task, d: Disk, o: Opened, inputs: seq<Input>)
    requires Faithful(t.journals) && MetadataFits(t, o) && |t.captured| == t.ledger.extent
    requires Open(t, d) == Some(o) && Open32(t, o) && JournalInputs(t, d, o) == Some(inputs)
    requires OrphansExact(t, d, o, inputs) && PlanStep(t, d, o, inputs).Some?
    requires WantsMore(t, d, o, inputs) && Frontier(o, inputs) < |t.captured|
    ensures var c := Extend(t, d, o, inputs);
            var plan := PlanStep(t, d, o, inputs);
            CallFollowsPlan(t, o, inputs, plan, c)
  {
    var next := NextInput(t, o, inputs);
    var more := inputs + [next];
    var staged := d[next.name := RangeOf(t, next)];
    var copied := if next.name in d then 0 else next.size;
    WindowOnDisk(t, o, d, inputs);
    ExtendIsJournaled(t, d, o, inputs, staged, copied);
    JournaledFollowsPlan(t, d, staged, o, inputs, copied);
  }

  lemma {:induction false} JournaledFollowsPlan(t: Task, d: Disk, staged: Disk, o: Opened, inputs: seq<Input>, copied: nat)
    requires Faithful(t.journals) && MetadataFits(t, o) && |t.captured| == t.ledger.extent
    requires Open(t, staged) == Some(o) && Open32(t, o) && |inputs| < 2 && Frontier(o, inputs) < |t.captured|
    requires AttemptOk(t, o, inputs)
    requires OrphansExact(t, d, o, inputs)
    requires staged == d[NextInput(t, o, inputs).name := RangeOf(t, NextInput(t, o, inputs))]
    requires PlanStep(t, staged, o, inputs + [NextInput(t, o, inputs)]).Some?
    ensures CallFollowsPlan(t, o, inputs, PlanStep(t, staged, o, inputs + [NextInput(t, o, inputs)]),
                            Journaled(t, staged, o, inputs, copied))
  {
    hide Finish, InputsOk, PlanStep, RecordableStep, StagedOk;
    var more := inputs + [NextInput(t, o, inputs)];
    var kept := WithJournal(t, staged, o, more);
    ghost var plan := PlanStep(t, staged, o, more);
    PlanMeansInOrder(t, staged, o, more);
    AppendedAttemptOk(t, o, inputs);
    assert JournalFits(t, o, more);
    assert Journaled(t, staged, o, inputs, copied) == Finish(t, kept, more, copied);
    OpenFrame(t, staged, Journal(o), kept[Journal(o)]);
    PlanSameRaw(t, staged, kept, o, more);
    assert PlanStep(t, kept, o, more) == plan;
    if WantsMore(t, kept, o, more) && Frontier(o, more) < |t.captured| {
      assert inputs == [];
      RetainsFirstWindow(t, d, staged, o, copied);
    } else {
      PlanIsRecordable(t, kept, o, more);
      FinishRecordsPlan(t, kept, o, more, copied);
    }
  }

  lemma {:induction false} PlanIsRecordable(t: Task, d: Disk, o: Opened, inputs: seq<Input>)
    requires !WantsMore(t, d, o, inputs) || Frontier(o, inputs) >= |t.captured|
    ensures PlanStep(t, d, o, inputs) == RecordableStep(t, d, o, inputs)
  {
  }

  lemma {:induction false} RetainsFirstWindow(t: Task, d: Disk, staged: Disk, o: Opened, copied: nat)
    requires Faithful(t.journals) && MetadataFits(t, o)
    requires Open(t, staged) == Some(o) && Open32(t, o) && Frontier(o, []) < |t.captured|
    requires AttemptOk(t, o, []) && OrphansExact(t, d, o, [])
    requires staged == d[NextInput(t, o, []).name := RangeOf(t, NextInput(t, o, []))]
    requires var more := [] + [NextInput(t, o, [])];
             var kept := WithJournal(t, staged, o, more);
             WantsMore(t, kept, o, more) && Frontier(o, more) < |t.captured| && PlanStep(t, kept, o, more).Some?
    ensures var more := [] + [NextInput(t, o, [])];
            var kept := WithJournal(t, staged, o, more);
            CallFollowsPlan(t, o, [], PlanStep(t, kept, o, more), Finish(t, kept, more, copied))
  {
    hide PlanStep, Finish, Open;
    var more := [] + [NextInput(t, o, [])];
    var kept := WithJournal(t, staged, o, more);
    OpenFrame(t, staged, Journal(o), kept[Journal(o)]);
    PlanNeedsInputsOk(t, kept, o, more);
    AppendedAttemptOk(t, o, []);
    assert JournalFits(t, o, more);
    JournalReadsBack(t, staged, o, more);
    RetainedMeansIncomplete(t, kept, o, more, copied);
    FirstWindowHeld(t, d, kept, o);
    assert more == [NextInput(t, o, [])];
    RetainedIsNotExhausted(t, kept, more, copied);
  }

  lemma {:induction false} RetainedIsNotExhausted(t: Task, d: Disk, inputs: seq<Input>, copied: nat)
    requires |inputs| == 1 && Finish(t, d, inputs, copied).result.WindowRetained?
    ensures Finish(t, d, inputs, copied).result == WindowRetained(false)
  {
  }

  lemma {:induction false} FirstWindowHeld(t: Task, d: Disk, kept: Disk, o: Opened)
    requires Frontier(o, []) < |t.captured| && OrphansExact(t, d, o, [])
    requires forall i: nat :: i > 0 ==> (StageFile(o.key, i) in kept <==> StageFile(o.key, i) in d)
    ensures OrphansExact(t, kept, o, [NextInput(t, o, [])])
  {
  }

  /** Only inputs that are in order can lead anywhere. */
  lemma {:induction false} PlanNeedsInputsOk(t: Task, d: Disk, o: Opened, inputs: seq<Input>)
    requires |inputs| == 1 && WantsMore(t, d, o, inputs) && Frontier(o, inputs) < |t.captured|
    requires PlanStep(t, d, o, inputs).Some?
    ensures InputsOk(inputs, o.cursor, t.ledger.extent)
  {
    var next := NextInput(t, o, inputs);
    var staged := d[next.name := RangeOf(t, next)];
    assert RecordableStep(t, staged, o, inputs + [next]).Some?;
  }

  /** Inputs that lead to a recorded step are in order. */
  lemma {:induction false} PlanMeansInOrder(t: Task, d: Disk, o: Opened, inputs: seq<Input>)
    requires PlanStep(t, d, o, inputs).Some?
    ensures |inputs| <= 2 && (inputs != [] ==> InputsOk(inputs, o.cursor, t.ledger.extent))
  {
    if inputs != [] && WantsMore(t, d, o, inputs) && Frontier(o, inputs) < |t.captured| {
      PlanNeedsInputsOk(t, d, o, inputs);
    }
  }

  lemma {:induction false} OpenMeansPolicy(t: Task, d: Disk)
    requires Open(t, d).Some?
    ensures StepPolicyOk(t)
  {
  }

  lemma {:induction false} AdvanceFollowsPlan(t: Task, d: Disk, o: Opened, plan: Option<Step>)
    requires Faithful(t.journals) && MetadataFits(t, o) && Open32(t, o)
    requires Working(t, d, o, plan) && plan.Some?
    ensures CallFollowsPlan(t, o, HeldInputs(t, d, o).value, plan, Advance(t, d))
  {
    hide CallFollowsPlan, Continue, Open, PlanStep;
    OpenMeansPolicy(t, d);
    var inputs := HeldInputs(t, d, o).value;
    if Journal(o) in d {
      AdvanceResumes(t, d, o, inputs);
      ContinueFollowsPlan(t, d, o, inputs);
    } else {
      assert JournalBytesFit(t, o, inputs) by { PlanMeansInOrder(t, d, o, inputs); }
      PlanMeansInOrder(t, d, o, inputs);
      JournalCreated(t, d, o);
      var d' := WithJournal(t, d, o, inputs);
      JournalReadsBack(t, d, o, inputs);
      PlanSameRaw(t, d, d', o, inputs);
      ContinueFollowsPlan(t, d', o, inputs);
    }
  }

  /**
    From any disk on the way to a plan, at most two uninterrupted calls record it: the first may
    only have preserved the first window of a row that needs two.
   */
  lemma {:induction false} TwoCallsRecordThePlan(t: Task, d: Disk, o: Opened, plan: Option<Step>)
    requires Faithful(t.journals) && MetadataFits(t, o) && Open32(t, o)
    requires Working(t, d, o, plan) && plan.Some?
    ensures var c := Advance(t, d);
            var c' := Advance(t, c.disk);
            (c.result.StepRecorded? && Published(t, c.disk, o, plan))
            || (c.result == WindowRetained(false) && c'.result.StepRecorded? && Published(t, c'.disk, o, plan))
  {
    AdvanceFollowsPlan(t, d, o, plan);
    var c := Advance(t, d);
    if !c.result.StepRecorded? {
      AdvanceFollowsPlan(t, c.disk, o, plan);
    }
  }

  // ----- From a fresh pin -----

  /**
    From a fresh pin: after any calls on it, each interrupted anywhere or not at all, the progress
    file is the pinned one or has exactly the one step that the inputs found at first lead to.
   */
  lemma {:induction false} FreshRetryRefines(t: Task, ds: seq<Disk>, o: Opened)
    requires Faithful(t.journals) && Faithful(t.ledger.doc) && CollisionFree(t.ledger.codec)
    requires DurableRun(t, ds) && FreshPin(t, ds[0], o)
    ensures OnTrack(t, ds[0], ds[|ds| - 1], o, PlanStep(t, ds[0], o, o.seeds))
  {
    hide DurableStep, Faithful, OnTrack, PlanStep;
    FreshIsWorking(t, ds[0], o);
    RetryRefines(t, ds, o, PlanStep(t, ds[0], o, o.seeds));
  }

  /** Inputs that lead to a step are in order. */
  lemma {:induction false} PlanMeansInputsOk(t: Task, d: Disk, o: Opened, inputs: seq<Input>)
    requires PlanStep(t, d, o, inputs).Some? && inputs != []
    ensures InputsOk(inputs, o.cursor, t.ledger.extent)
    decreases 2 - |inputs|
  {
    hide InputsOk, VerdictOn;
    if WantsMore(t, d, o, inputs) && Frontier(o, inputs) < |t.captured| {
      var next := NextInput(t, o, inputs);
      PlanMeansInputsOk(t, d[next.name := RangeOf(t, next)], o, inputs + [next]);
      FirstInputOk(inputs, next, o.cursor, t.ledger.extent);
    }
  }

  lemma {:induction false} FirstInputOk(inputs: seq<Input>, next: Input, cursor: Cursor, extent: nat)
    requires inputs != [] && InputsOk(inputs + [next], cursor, extent)
    ensures InputsOk(inputs, cursor, extent)
  {
    assert (inputs + [next])[0] == inputs[0];
  }

  lemma {:induction false} SeedsStartAttempt(t: Task, d: Disk, o: Opened)
    requires PlanStep(t, d, o, o.seeds).Some?
    ensures AttemptOk(t, o, o.seeds)
  {
    if o.seeds != [] { PlanMeansInputsOk(t, d, o, o.seeds); }
    assert o.seeds[..|o.seeds|] == o.seeds;
  }

  lemma {:induction false} AppendNeverSticks(t: Task, d: Disk, d': Disk, o: Opened, plan: Option<Step>)
    requires Faithful(t.journals) && Working(t, d, o, plan) && plan.Some? && AppendsInput(t, o, d, d')
    ensures JournalInputs(t, d', o).Some?
  {
    hide Faithful, InputsOk, Open, StagedInputOk, VerdictOn;
    var inputs := JournalInputs(t, d, o).value;
    var next := NextInput(t, o, inputs);
    assert d[next.name := RangeOf(t, next)] == d;
    PlanMeansInputsOk(t, d, o, inputs + [next]);
    AppendedAttemptOk(t, o, inputs);
    JournalReadsBack(t, d, o, inputs + [next]);
  }

  /** On the way to a step no journal is ever refused: the next disk is still on the way, or has the step. */
  lemma {:induction false} ActionNeverSticks(t: Task, d: Disk, d': Disk, o: Opened, plan: Option<Step>)
    requires Faithful(t.journals) && Faithful(t.ledger.doc) && CollisionFree(t.ledger.codec)
    requires Working(t, d, o, plan) && plan.Some? && Action(t, d, d')
    ensures !Stuck(t, d', o)
  {
    hide InputsOk, JournalInputs, Open, PlanStep, Published, RecordsStep, StagedInputOk, VerdictOn;
    if CreatesJournal(t, o, d, d') {
      SeedsStartAttempt(t, d, o);
      JournalReadsBack(t, d, o, o.seeds);
    } else if StagesWindow(t, o, d, d') {
      var next := NextInput(t, o, JournalInputs(t, d, o).value);
      JournalFrame(t, d, o, next.name, d'[next.name]);
    } else if AppendsInput(t, o, d, d') {
      AppendNeverSticks(t, d, d', o, plan);
    } else {
      RecordEndsPin(t, d, d', o, plan);
    }
  }

  lemma {:induction false} RecordEndsPin(t: Task, d: Disk, d': Disk, o: Opened, plan: Option<Step>)
    requires Faithful(t.ledger.doc) && CollisionFree(t.ledger.codec)
    requires Working(t, d, o, plan) && RecordsStep(t, o, d, d')
    ensures Open(t, d') == None
  {
    hide Open, PlanStep, RecordSpec;
    var inputs := JournalInputs(t, d, o).value;
    RecordFollowsPlan(t, d, o, inputs);
    OldPinIsDead(t, d, d', o, PlanStep(t, d, o, inputs));
  }

  /** After any calls on a fresh pin that leads to a step, the attempt is on the way to it or has recorded it. */
  lemma {:induction false} RetriesNeverStick(t: Task, ds: seq<Disk>, o: Opened)
    requires Faithful(t.journals) && Faithful(t.ledger.doc) && CollisionFree(t.ledger.codec)
    requires DurableRun(t, ds) && FreshPin(t, ds[0], o) && PlanStep(t, ds[0], o, o.seeds).Some?
    ensures var plan := PlanStep(t, ds[0], o, o.seeds);
            Working(t, ds[|ds| - 1], o, plan) || Published(t, ds[|ds| - 1], o, plan)
    decreases |ds|
  {
    hide Action, CollisionFree, DurableStep, Faithful, FreshPin, PlanStep, Published, Stuck, Working;
    var plan := PlanStep(t, ds[0], o, o.seeds);
    FreshRetryRefines(t, ds, o);
    if |ds| > 1 {
      var n := |ds| - 1;
      RunPrefix(t, ds);
      RetriesNeverStick(t, ds[..n], o);
      if ds[n] != ds[n - 1] {
        if Published(t, ds[n - 1], o, plan) {
          FreshOpens(t, ds[0], o);
          OldPinIsDead(t, ds[0], ds[n - 1], o, plan);
          NoActionUnderDeadPin(t, ds[n - 1], ds[n]);
        } else {
          ActionNeverSticks(t, ds[n - 1], ds[n], o, plan);
        }
      }
    } else {
      FreshOpens(t, ds[0], o);
      FreshIsWorking(t, ds[0], o);
    }
  }

  lemma {:induction false} FreshOpens(t: Task, d: Disk, o: Opened)
    requires FreshPin(t, d, o)
    ensures Open(t, d) == Some(o) && Journal(o) !in d && forall i: nat :: StageFile(o.key, i) !in d
  {
  }

  lemma {:induction false} NoActionUnderDeadPin(t: Task, d: Disk, d': Disk)
    requires Open(t, d) == None
    ensures !Action(t, d, d')
  {
    hide Open;
  }

  /** What at most two uninterrupted calls leave: the second only when the first has just kept a window. */
  function TwoCalls(t: Task, d: Disk): Disk {
    var c := Advance(t, d);
    if c.result.StepRecorded? then c.disk else Advance(t, c.disk).disk
  }

  /**
    Interruptions do not matter. Where uninterrupted calls on a fresh pin would record a step, then
    after any calls on it, each interrupted anywhere or not at all, the progress file either is
    already what they would have left, or becomes exactly that with two more uninterrupted calls.
   */
  lemma {:induction false} InterruptionsDoNotMatter(t: Task, ds: seq<Disk>, o: Opened)
    requires Faithful(t.journals) && Faithful(t.ledger.doc) && CollisionFree(t.ledger.codec)
    requires DurableRun(t, ds) && FreshPin(t, ds[0], o) && PlanStep(t, ds[0], o, o.seeds).Some?
    requires MetadataFits(t, o) && Open32(t, o)
    ensures var path, first, last := t.ledger.path, ds[0], ds[|ds| - 1];
            && path in TwoCalls(t, first)
            && ((path in last && last[path] == TwoCalls(t, first)[path])
                || (path in TwoCalls(t, last) && TwoCalls(t, last)[path] == TwoCalls(t, first)[path]))
  {
    hide Advance, Faithful, MetadataFits, PlanStep, Working;
    var plan := PlanStep(t, ds[0], o, o.seeds);
    FreshIsWorking(t, ds[0], o);
    TwoCallsRecordThePlan(t, ds[0], o, plan);
    RetriesNeverStick(t, ds, o);
    if !Published(t, ds[|ds| - 1], o, plan) { TwoCallsRecordThePlan(t, ds[|ds| - 1], o, plan); }
  }
}
