/**
  A tick is part of a recovery run: whatever it passes through is reached by the actions of calls
  and by saves of its journal. So its history certifies the source, and a tick that nothing stops
  makes progress when the rows fit its window.
 */
module TickRuns {
  import opened Foundations
  import opened ChainRows
  import opened FragmentProgress
  import opened RecoveryStep
  import opened RecoveryTick
  import opened RetryRefinement
  import opened BoundedRows
  import opened RecoveryRuns
  import opened TickChecks

  function Disks(run: seq<Moment>): (ds: seq<Disk>)
    ensures |ds| == |run| && forall i :: 0 <= i < |run| ==> ds[i] == run[i].disk
  {
    seq(|run|, i requires 0 <= i < |run| => run[i].disk)
  }

  /** The window of the step the journal on disk announces; any other where it announces none. */
  function WindowOn(t: Task, k: Tick, d: Disk): nat {
    match AnnouncedTask(t, k, d)
    case None => 1
    case Some(u) => u.window
  }

  function Windows(t: Task, k: Tick, run: seq<Moment>): (ws: seq<nat>)
    requires run != []
    ensures |ws| == |run| - 1 && forall i :: 0 <= i < |ws| ==> ws[i] == WindowOn(t, k, run[i].disk)
  {
    seq(|run| - 1, i requires 0 <= i < |run| - 1 => WindowOn(t, k, run[i].disk))
  }

  lemma {:induction false} TickStepGoes(t: Task, k: Tick, a: Moment, b: Moment)
    requires TickStep(t, k, a, b) && k.name.TickFile?
    ensures Goes(t, a.disk, b.disk, WindowOn(t, k, a.disk))
  {
    hide Action;
    if a.disk != b.disk {
      if SavesJournal(k, a.disk, b.disk) {
        assert TickSaved(a.disk, b.disk, k.name.title);
      } else {
        ActionIsMove(t, AnnouncedTask(t, k, a.disk).value, a.disk, b.disk);
      }
    }
  }

  /** The disks of a tick are a recovery run, with the windows its journal announced. */
  lemma {:induction false} TickIsRecoveryRun(t: Task, k: Tick, first: Disk, run: seq<Moment>)
    requires TickRun(t, k, first, run) && k.name.TickFile? && HexPins(t, Disks(run))
    ensures RecoveryRun(t, Disks(run), Windows(t, k, run))
  {
    hide Goes, HexPins, TickStep, WindowOn;
    var ds, ws := Disks(run), Windows(t, k, run);
    forall i | 0 <= i < |ws| ensures RecoveryMove(t, ds, ws, i) {
      assert TickMove(t, k, run, i);
      TickStepGoes(t, k, run[i], run[i + 1]);
    }
  }

  lemma {:induction false} RunPrefix(t: Task, ds: seq<Disk>, ws: seq<nat>, n: nat)
    requires RecoveryRun(t, ds, ws) && n <= |ws|
    ensures RecoveryRun(t, ds[..n + 1], ws[..n])
  {
    hide Goes, HexPin;
    var before, windows := ds[..n + 1], ws[..n];
    forall i | 0 <= i < |before| ensures HexPinAt(t, before, i) { assert HexPinAt(t, ds, i); }
    forall i | 0 <= i < n ensures RecoveryMove(t, before, windows, i) { assert RecoveryMove(t, ds, ws, i); }
  }

  /**
    After any run, on every disk a tick passes through, wherever it is stopped, the history
    certifies the source from the anchor to its cursor, as one pass would.
   */
  lemma {:induction false} TickCertifiesSource(t: Task, k: Tick, ds: seq<Disk>, ws: seq<nat>, start: nat, first: Disk,
                                               run: seq<Moment>, i: nat, w: nat)
    requires Laws(t) && RecoveryRun(t, ds, ws) && Start(t, ds[0], start) && ds[|ds| - 1] == first
    requires TickRun(t, k, first, run) && k.name.TickFile? && HexPins(t, Disks(run)) && i < |run| && WindowOk(w)
    ensures var d := run[i].disk;
            t.ledger.path in d && Open(At(t, d, w), d).Some?
            && Extension(t.ledger.codec, t.captured, t.ledger.anchor, Open(At(t, d, w), d).value.cursor)
  {
    hide Extension, Goes, HexPins, Laws, Open, Start, TickMoment, TickMove;
    TickIsRecoveryRun(t, k, first, run);
    var part, windows := Disks(run)[..i + 1], Windows(t, k, run)[..i];
    RunPrefix(t, Disks(run), Windows(t, k, run), i);
    RunsJoin(t, ds, ws, part, windows);
    RunCertifiesSource(t, ds + part[1..], ws + windows, start, w);
    assert i > 0 ==> (ds + part[1..])[|ds| + i - 1] == part[1..][i - 1];
  }

  // ----- A tick that nothing stops -----

  /** The journals a tick has saved when its first step has been checkpointed fit their budget. */
  predicate FirstJournalsFit(t: Task, k: Tick, s: Live, d: Disk)
    requires s.copied < k.maxBytes
  {
    ManifestFits(k, s.manifest) && ManifestFits(k, Announced(s.manifest, StepWindow(k, s)))
    && ManifestFits(k, Checkpointed(s.manifest, TurnEntry(t, k, s, d)))
  }

  /** The variables a tick starts its loop with. */
  function FirstLive(t: Task, k: Tick, h: History, c: Cursor): Live {
    var m := Manifest(t.pin, Begun, [], None);
    Live(m, t.ledger.codec.sha256(Content(k, m)), h, c, 0, 0)
  }

  lemma {:induction false} StepGoesForward(t: Task, k: Tick, s: Live, d: Disk)
    requires s.copied < k.maxBytes
    ensures var o := StepSpec(t, k, s, d);
            && o.live.cursor.sequence >= s.cursor.sequence
            && |o.live.manifest.entries| >= |s.manifest.entries|
  {
    hide Advance, StateCursor;
  }

  lemma {:induction false} LoopGoesForward(t: Task, k: Tick, s: Live, d: Disk)
    ensures var o := LoopSpec(t, k, s, d);
            && o.live.cursor.sequence >= s.cursor.sequence
            && |o.live.manifest.entries| >= |s.manifest.entries|
    decreases k.maxSteps - |s.manifest.entries|
  {
    hide StepSpec;
    if s.copied < k.maxBytes {
      var o := StepSpec(t, k, s, d);
      StepGoesForward(t, k, s, d);
      if |s.manifest.entries| < k.maxSteps && o.turn == GoOn && |o.live.manifest.entries| > |s.manifest.entries| {
        LoopGoesForward(t, k, o.live, o.disk);
      }
    }
  }

  /** A turn whose step recorded goes on, from the recorded cursor. */
  lemma {:induction false} RecordedTurn(t: Task, k: Tick, s: Live, d: Disk)
    requires s.copied < k.maxBytes && TurnStep(t, k, s, d).result.StepRecorded? && !StepSpec(t, k, s, d).turn.Threw?
    ensures var o := StepSpec(t, k, s, d);
            && o.turn == GoOn && o.live.cursor == TurnStep(t, k, s, d).result.next
            && |o.live.manifest.entries| == |s.manifest.entries| + 1
  {
    hide Advance, StateCursor;
  }

  /** The step of a tick's first turn is an uninterrupted call after a run. */
  lemma {:induction false} FirstStepRecords(t: Task, k: Tick, d: Disk, s: Live)
    requires Laws(t) && Inv(t, d) && k.name.TickFile? && HexPin(t, d) && s.copied == 0 < k.maxBytes
    requires t.ledger.path in d && t.pin == t.ledger.codec.sha256(d[t.ledger.path]) && LastPin(s.manifest) == t.pin
    requires var u := t.(window := StepWindow(k, s)); AnchorOk(u) && CallFits(u, d)
    requires Open(At(t, d, StepWindow(k, s)), d).Some?
    ensures var r := TurnStep(t, k, s, d[k.name := Content(k, s.manifest)]).result;
            var cursor := Open(At(t, d, StepWindow(k, s)), d).value.cursor;
            r.StepRecorded? && cursor.sequence < r.next.sequence <= cursor.sequence + t.limit
  {
    hide Advance, AnchorOk, Extension, HistoryFits, Inv, Laws, MetadataFits, Open;
    var w := StepWindow(k, s);
    var u := t.(window := w);
    var d0 := d[k.name := Content(k, s.manifest)];
    var d1 := d0[k.name := Content(k, Announced(s.manifest, w))];
    InvMeansPolicy(t, d);
    assert TickSaved(d, d0, k.name.title) && TickSaved(d0, d1, k.name.title);
    SaveKeepsInv(t, d, d0);
    SaveKeepsInv(t, d0, d1);
    assert At(t, d1, w) == StepTask(t, t.pin, w) == At(t, d, w) == At(u, d1, w);
    OpenFrame(At(t, d, w), d, k.name, Content(k, s.manifest));
    OpenFrame(At(t, d, w), d0, k.name, Content(k, Announced(s.manifest, w)));
    LawsAnyWindow(t, u);
    InvIgnoresWindow(t, u, d1);
    InvRecords(u, d1);
  }

  lemma {:induction false} InvIgnoresWindow(t: Task, u: Task, d: Disk)
    requires Inv(t, d) && u == t.(window := u.window)
    ensures Inv(u, d)
  {
    hide AttemptInOrder;
    forall w: nat ensures InvFor(u, d, w) {
      assert InvFor(t, d, w) && At(u, d, w) == At(t, d, w);
    }
  }

  /**
    A tick that nothing stops makes progress. After any run, over a source that is valid from the
    anchor with rows no longer than the tick's first window, below the tip and the step limit, it
    checkpoints at least one step and ends with a later cursor.
   */
  lemma {:induction false} QuietTickRecords(t: Task, k: Tick, ds: seq<Disk>, ws: seq<nat>, start: nat, h: History, c: Cursor)
    requires Laws(t) && Faithful(k.doc) && RecoveryRun(t, ds, ws) && Start(t, ds[0], start)
    requires 1 <= k.maxSteps <= 4 && 1 <= k.maxBytes <= 2097152 && k.name.TickFile? && k.name !in ds[|ds| - 1]
    requires CheckedHistory(t.ledger, ds[|ds| - 1], t.pin) == Some((h, c)) && LinkInputs(t, ds[|ds| - 1]).Some?
    requires c.offset != t.ledger.extent && |h.steps| < MAX_STEPS
    requires FirstJournalsFit(t, k, FirstLive(t, k, h, c), ds[|ds| - 1][k.name := Content(k, FirstLive(t, k, h, c).manifest)])
    requires var u := t.(window := if k.maxBytes < 1048576 then k.maxBytes else 1048576);
             AnchorOk(u) && CallFits(u, ds[|ds| - 1])
    ensures var r := TickSpec(t, k, ds[|ds| - 1]).0;
            r.Ticked? && r.steps >= 1 && r.cursor.sequence > c.sequence
  {
    hide AnchorOk, CallFits, CheckedHistory, ConcludeSpec, Inv, Laws, LiveOk, LoopSpec, Open, RecoveryRun, Start, StepSpec, TurnEntry, TurnStep;
    RunEnds(t, ds, ws);
    LawsAreFaithful(t);
    var d := ds[|ds| - 1];
    var s := FirstLive(t, k, h, c);
    var d0 := d[k.name := Content(k, s.manifest)];
    StartInv(t, ds[0], start);
    RunKeepsInv(t, ds, ws);
    HistoryIsOpened(t, d, StepWindow(k, s), h, c);
    OpenMeansPolicy(At(t, d, StepWindow(k, s)), d);
    FirstStepRecords(t, k, d, s);
    FirstIsLive(t, k, d, s);
    OnlyRaisingNeedsReconciliation(t, k, s, d0);
    RecordedTurn(t, k, s, d0);
    var o := StepSpec(t, k, s, d0);
    LoopTurns(t, k, s, d0);
    LoopGoesForward(t, k, o.live, o.disk);
    ConcludeKeeps(k, LoopSpec(t, k, s, d0).turn, LoopSpec(t, k, s, d0).live, LoopSpec(t, k, s, d0).disk);
    TickRunsLoop(t, k, d, h, c);
  }

  lemma {:induction false} RunEnds(t: Task, ds: seq<Disk>, ws: seq<nat>)
    requires RecoveryRun(t, ds, ws)
    ensures ds != [] && HexPin(t, ds[|ds| - 1])
  {
    hide HexPin;
    assert HexPinAt(t, ds, |ds| - 1);
  }

  lemma {:induction false} LawsAreFaithful(t: Task)
    requires Laws(t)
    ensures Faithful(t.ledger.doc)
  {
  }

  /** What the tick reads is what its first step opens. */
  lemma {:induction false} HistoryIsOpened(t: Task, d: Disk, w: nat, h: History, c: Cursor)
    requires Inv(t, d) && WindowOk(w) && CheckedHistory(t.ledger, d, t.pin) == Some((h, c))
    ensures t.ledger.path in d && t.pin == t.ledger.codec.sha256(d[t.ledger.path])
    ensures Open(At(t, d, w), d).Some? && Open(At(t, d, w), d).value.history == h && Open(At(t, d, w), d).value.cursor == c
  {
    hide AttemptAged, Inv, StateCursor, LinkInputs;
    var o, inputs := InOrder(t, d, w);
    AgedIsOpen(At(t, d, w), d, o, inputs);
  }

  lemma {:induction false} FirstIsLive(t: Task, k: Tick, d: Disk, s: Live)
    requires Faithful(k.doc) && k.name.TickFile? && t.ledger.path.ProgressFile?
    requires CheckedHistory(t.ledger, d, t.pin) == Some((s.history, s.cursor)) && s == FirstLive(t, k, s.history, s.cursor)
    requires ManifestFits(k, s.manifest)
    ensures LiveOk(t, k, s, d[k.name := Content(k, s.manifest)])
  {
    hide Accounts, LiveOk, StateCursor;
    FirstAccounts(t, k, s.manifest, d);
    assert LiveFile(t, s, d);
    CheckpointIsLive(t, k, s, d);
  }

  lemma {:induction false} LoopTurns(t: Task, k: Tick, s: Live, d: Disk)
    requires |s.manifest.entries| < k.maxSteps && s.cursor.offset != t.ledger.extent && |s.history.steps| != MAX_STEPS
    requires s.copied < k.maxBytes && StepSpec(t, k, s, d).turn == GoOn
    requires |StepSpec(t, k, s, d).live.manifest.entries| > |s.manifest.entries|
    ensures LoopSpec(t, k, s, d) == LoopSpec(t, k, StepSpec(t, k, s, d).live, StepSpec(t, k, s, d).disk)
  {
    hide StepSpec;
  }

  lemma {:induction false} ConcludeKeeps(k: Tick, turn: Turn, s: Live, d: Disk)
    ensures var r := ConcludeSpec(k, turn, s, d).0;
            r.Ticked? && r.cursor == s.cursor && r.steps == |s.manifest.entries|
  {
  }

  lemma {:induction false} TickRunsLoop(t: Task, k: Tick, d: Disk, h: History, c: Cursor)
    requires TickPolicyOk(t, k) && k.name !in d && LinkInputs(t, d).Some?
    requires CheckedHistory(t.ledger, d, t.pin) == Some((h, c)) && ManifestFits(k, FirstLive(t, k, h, c).manifest)
    ensures var s := FirstLive(t, k, h, c);
            var o := LoopSpec(t, k, s, d[k.name := Content(k, s.manifest)]);
            TickSpec(t, k, d) == ConcludeSpec(k, o.turn, o.live, o.disk)
  {
    hide CheckedHistory, ConcludeSpec, LinkInputs, LoopSpec;
  }
}
