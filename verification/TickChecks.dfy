/**
  The checks a tick makes on a step that returned can never fail: whatever an uninterrupted step
  reports, the progress file bears it out. So a tick that nothing stops asks for reconciliation
  only when a step raised or a journal had no room.
 */
module TickChecks {
  import opened Foundations
  import opened FragmentedRow
  import opened FragmentProgress
  import opened RecoveryStep
  import opened RecoveryTick

  /** A recorded step is the one more step in the progress file; any other result left the file alone. */
  predicate BornOut(t: Task, o: Opened, r: StepResult, d: Disk) {
    if r.StepRecorded? then
      match CheckedHistory(t.ledger, d, r.pin)
      case None => false
      case Some((h, c)) =>
        c == r.next && |h.steps| == |o.history.steps| + 1
        && 1 <= c.sequence - o.cursor.sequence <= t.limit && o.cursor.offset < c.offset
    else
      CheckedHistory(t.ledger, d, t.pin) == Some((o.history, o.cursor))
  }

  lemma {:induction false} OpenedIsChecked(t: Task, d: Disk, o: Opened)
    requires Open(t, d) == Some(o)
    ensures CheckedHistory(t.ledger, d, t.pin) == Some((o.history, o.cursor))
  {
  }

  lemma {:induction false} FinishBornOut(t: Task, d: Disk, o: Opened, inputs: seq<Input>, copied: nat)
    requires Faithful(t.ledger.doc) && Open(t, d) == Some(o)
    requires !Raised(Finish(t, d, inputs, copied).result)
    ensures var f := Finish(t, d, inputs, copied); BornOut(t, o, f.result, f.disk)
  {
    hide FragmentVerdict, StateCursor;
    RecordOnOpened(t, d, o, inputs);
    OpenedIsChecked(t, d, o);
    var f := Finish(t, d, inputs, copied);
    if f.result.StepRecorded? {
      VerifiedBounds(t.ledger.codec, d, AsReceipts(inputs), o.cursor, t.limit);
      var v := FragmentVerdict(t.ledger.codec, d, AsReceipts(inputs), o.cursor, t.limit);
      var longer := o.history.(steps := o.history.steps + [NewStep(o.cursor, v.next, v.sha, inputs)]);
      assert ReadsBack(t.ledger.doc, longer);
      LongerEnds(t.ledger, o.history, NewStep(o.cursor, v.next, v.sha, inputs));
    }
  }

  lemma {:induction false} LongerEnds(l: Ledger, h: History, step: Step)
    requires StateCursor(l, h.(steps := h.steps + [step])).Some?
    ensures StateCursor(l, h.(steps := h.steps + [step])) == Some(step.next)
  {
  }

  lemma {:induction false} ExtendBornOut(t: Task, d: Disk, o: Opened, inputs: seq<Input>)
    requires Faithful(t.ledger.doc) && Open(t, d) == Some(o) && Frontier(o, inputs) < |t.captured|
    requires !Raised(Extend(t, d, o, inputs).result)
    ensures var e := Extend(t, d, o, inputs); BornOut(t, o, e.result, e.disk)
  {
    hide BornOut, Finish, Open;
    var next := NextInput(t, o, inputs);
    var staged := d[next.name := RangeOf(t, next)];
    var copied := if next.name in d then 0 else next.size;
    OpenFrame(t, d, next.name, RangeOf(t, next));
    var more := inputs + [next];
    var journaled := WithJournal(t, staged, o, more);
    OpenFrame(t, staged, Journal(o), journaled[Journal(o)]);
    ExtendIsJournaled(t, d, o, inputs, staged, copied);
    FinishBornOut(t, journaled, o, more, copied);
  }

  /** Whatever an uninterrupted step that did not raise reports, the progress file it leaves bears it out. */
  lemma {:induction false} StepIsBornOut(t: Task, d: Disk)
    requires Faithful(t.ledger.doc) && !Raised(Advance(t, d).result)
    ensures Open(t, d).Some?
    ensures BornOut(t, Open(t, d).value, Advance(t, d).result, Advance(t, d).disk)
  {
    hide BornOut, Extend, Finish, JournalInputs, Open;
    var o := Open(t, d).value;
    if o.cursor.offset == t.ledger.extent {
      TipBornOut(t, d, o);
    } else {
      var d' := if Journal(o) in d then d else WithJournal(t, d, o, o.seeds);
      if Journal(o) !in d { OpenFrame(t, d, Journal(o), d'[Journal(o)]); }
      var inputs := StartInputs(t, d, o).value;
      if WantsMore(t, d', o, inputs) && Frontier(o, inputs) < |t.captured| {
        ExtendBornOut(t, d', o, inputs);
      } else {
        FinishBornOut(t, d', o, inputs, 0);
      }
    }
  }

  lemma {:induction false} TipBornOut(t: Task, d: Disk, o: Opened)
    requires Open(t, d) == Some(o)
    ensures BornOut(t, o, TipReached, d)
  {
    OpenedIsChecked(t, d, o);
  }

  /** The step a tick makes in a turn, from the disk its announcement left. */
  function TurnStep(t: Task, k: Tick, s: Live, d: Disk): Outcome
    requires s.copied < k.maxBytes
  {
    var window := StepWindow(k, s);
    Advance(StepTask(t, LastPin(s.manifest), window), d[k.name := Content(k, Announced(s.manifest, window))])
  }

  /** The entry of a turn whose step returned. */
  function TurnEntry(t: Task, k: Tick, s: Live, d: Disk): Entry
    requires s.copied < k.maxBytes
  {
    var c := TurnStep(t, k, s, d);
    if c.result.StepRecorded? then EntryFor(s, c.result, c.result.pin, c.result.next, c.copied)
    else EntryFor(s, c.result, LastPin(s.manifest), s.cursor, c.copied)
  }

  /**
    A turn that nothing stops ends in reconciliation exactly when its step raises or one of its
    two journals has no room: the checks on a step that returned never fail, and the entry
    checkpointed is the one the step reported.
   */
  lemma {:induction false} OnlyRaisingNeedsReconciliation(t: Task, k: Tick, s: Live, d: Disk)
    requires Faithful(t.ledger.doc) && k.name.TickFile? && LiveOk(t, k, s, d) && s.copied < k.maxBytes
    ensures var o := StepSpec(t, k, s, d);
            && (o.turn.Threw? <==>
                !ManifestFits(k, Announced(s.manifest, StepWindow(k, s))) || Raised(TurnStep(t, k, s, d).result)
                || !ManifestFits(k, Checkpointed(s.manifest, TurnEntry(t, k, s, d))))
            && (!o.turn.Threw? ==> o.live.manifest == Checkpointed(s.manifest, TurnEntry(t, k, s, d)))
  {
    hide Advance, BornOut, LiveOk, Open, StateCursor;
    var c := TurnStep(t, k, s, d);
    if ManifestFits(k, Announced(s.manifest, StepWindow(k, s))) && !Raised(c.result) {
      TurnIsChecked(t, k, s, d);
    }
  }

  lemma {:induction false} TurnIsChecked(t: Task, k: Tick, s: Live, d: Disk)
    requires Faithful(t.ledger.doc) && k.name.TickFile? && LiveOk(t, k, s, d) && s.copied < k.maxBytes
    requires !Raised(TurnStep(t, k, s, d).result)
    ensures var c := TurnStep(t, k, s, d);
            var found := CheckedStep(t, c.disk, s, c.result, c.copied);
            found.Some? && found.value.0 == TurnEntry(t, k, s, d)
  {
    hide Accounts, Advance, ReadHistory, LinkInputs, StateCursor;
    var u := StepTask(t, LastPin(s.manifest), StepWindow(k, s));
    var d' := d[k.name := Content(k, Announced(s.manifest, StepWindow(k, s)))];
    StepIsBornOut(u, d');
    OpenedIsLive(t, k, s, d, u, d');
  }

  /** What the step opens is the history the tick last read. */
  lemma {:induction false} OpenedIsLive(t: Task, k: Tick, s: Live, d: Disk, u: Task, d': Disk)
    requires LiveOk(t, k, s, d) && u.ledger == t.ledger && u.pin == LastPin(s.manifest) && Open(u, d').Some?
    requires t.ledger.path in d' && d'[t.ledger.path] == d[t.ledger.path]
    ensures Open(u, d').value.history == s.history && Open(u, d').value.cursor == s.cursor
  {
    hide Accounts, LinkInputs;
  }
}
