/** What the turns of a tick that nothing stops do, told from the steps they make. */
module TickOutcomes {
  import opened Foundations
  import opened ChainRows
  import opened FragmentProgress
  import opened RecoveryStep
  import opened RecoveryTick
  import opened TickChecks
  import opened FragmentRollover
  import opened HistoryForm

  /** At most a mebibyte, and no more than the budget has left. */
  function WindowLeft(k: Tick, s: Live): nat
    requires s.copied < k.maxBytes
  {
    if k.maxBytes - s.copied < 1048576 then k.maxBytes - s.copied else 1048576
  }

  /** The step of a turn: on the last checkpointed pin, with that window, once it is announced on disk. */
  function StepMade(t: Task, k: Tick, s: Live, d: Disk): Outcome
    requires s.copied < k.maxBytes
  {
    var pin := if s.manifest.entries == [] then s.manifest.initial else s.manifest.entries[|s.manifest.entries| - 1].pin;
    var flight := Flight(|s.manifest.entries|, pin, WindowLeft(k, s));
    Advance(t.(pin := pin, window := WindowLeft(k, s)),
            d[k.name := k.doc.dump(s.manifest.(status := StepInFlight, flight := Some(flight)))])
  }

  lemma {:induction false} TurnMakesStep(t: Task, k: Tick, s: Live, d: Disk)
    requires s.copied < k.maxBytes
    ensures TurnStep(t, k, s, d) == StepMade(t, k, s, d)
  {
    hide Advance;
  }

  /** A turn ends the tick exactly when its step was refused or exhausted the row window. */
  function TurnFor(r: StepResult): Turn {
    match r
    case StepNotRecorded(_) => EndWith(StepRefused)
    case WindowRetained(exhausted) => if exhausted then EndWith(RowWindowExhausted) else GoOn
    case _ => GoOn
  }

  function StatusFor(r: StepResult): EntryStatus {
    match r
    case StepRecorded(_, _) => RecordedEntry
    case WindowRetained(exhausted) => RetainedEntry(exhausted)
    case TipReached => TipEntry
    case _ => NotRecordedEntry
  }

  /** What the entry of a returned step must be: where it started and ended, its rows, its bytes and its copies. */
  predicate Describes(e: Entry, s: Live, c: Outcome) {
    && e.status == StatusFor(c.result) && e.copied == c.copied
    && e.prior == LastPin(s.manifest)
    && (if c.result.StepRecorded? then e.pin == c.result.pin && e.next == c.result.next
        else e.pin == e.prior && e.next == s.cursor)
    && e.records == e.next.sequence - s.cursor.sequence && e.bytes == e.next.offset - s.cursor.offset
  }

  /**
    A turn that does not stop for reconciliation is told by its step: it ends the tick exactly when
    the step was refused or exhausted the row window, and its journal and variables are the step's.
   */
  lemma {:induction false} TurnTellsStep(t: Task, k: Tick, s: Live, d: Disk)
    requires s.copied < k.maxBytes && !StepSpec(t, k, s, d).turn.Threw?
    ensures var (o, c) := (StepSpec(t, k, s, d), StepMade(t, k, s, d));
            && !Raised(c.result) && o.turn == TurnFor(c.result)
            && |o.live.manifest.entries| == |s.manifest.entries| + 1
            && o.live.manifest.entries[..|s.manifest.entries|] == s.manifest.entries
            && Describes(o.live.manifest.entries[|s.manifest.entries|], s, c)
            && o.live.cursor == o.live.manifest.entries[|s.manifest.entries|].next
            && o.live.copied == s.copied + c.copied && o.live.unresolved == 0
            && o.live.manifest.status == StepCheckpointed && o.live.manifest.flight == None
            && o.live.manifest.initial == s.manifest.initial
            && o.disk == c.disk[k.name := k.doc.dump(o.live.manifest)]
  {
    hide Advance, StateCursor;
    TurnMakesStep(t, k, s, d);
  }

  /** A turn that stops for reconciliation checkpoints nothing. */
  lemma {:induction false} ThrownTurnKeeps(t: Task, k: Tick, s: Live, d: Disk)
    requires s.copied < k.maxBytes && StepSpec(t, k, s, d).turn.Threw?
    ensures var o := StepSpec(t, k, s, d);
            o.live.manifest.entries == s.manifest.entries && o.live.cursor == s.cursor && o.live.copied == s.copied
  {
    hide Advance, StateCursor;
  }

  function Rows(entries: seq<Entry>): int {
    if entries == [] then 0 else Rows(entries[..|entries| - 1]) + entries[|entries| - 1].records
  }

  function RowBytes(entries: seq<Entry>): int {
    if entries == [] then 0 else RowBytes(entries[..|entries| - 1]) + entries[|entries| - 1].bytes
  }

  /** How far the checkpointed rows and bytes are from the cursor. */
  predicate Balanced(s: Live, rows: int, bytes: int, copied: int) {
    && Rows(s.manifest.entries) - s.cursor.sequence == rows
    && RowBytes(s.manifest.entries) - s.cursor.offset == bytes
    && Confirmed(s.manifest.entries) - s.copied == copied
  }

  lemma {:induction false} TurnKeepsBalance(t: Task, k: Tick, s: Live, d: Disk, rows: int, bytes: int, copied: int)
    requires s.copied < k.maxBytes && Balanced(s, rows, bytes, copied)
    ensures Balanced(StepSpec(t, k, s, d).live, rows, bytes, copied)
  {
    hide StepMade, StepSpec;
    var o := StepSpec(t, k, s, d);
    if o.turn.Threw? {
      ThrownTurnKeeps(t, k, s, d);
    } else {
      TurnTellsStep(t, k, s, d);
      var n := |s.manifest.entries|;
      assert o.live.manifest.entries[..|o.live.manifest.entries| - 1] == s.manifest.entries;
    }
  }

  /** The rows, bytes and copies of a tick's checkpointed steps add up to what its cursor and its count moved. */
  lemma {:induction false} TickAddsUp(t: Task, k: Tick, s: Live, d: Disk, rows: int, bytes: int, copied: int)
    requires Balanced(s, rows, bytes, copied)
    ensures Balanced(LoopSpec(t, k, s, d).live, rows, bytes, copied)
    decreases k.maxSteps - |s.manifest.entries|
  {
    hide Balanced, StepSpec;
    if s.copied < k.maxBytes {
      var o := StepSpec(t, k, s, d);
      TurnKeepsBalance(t, k, s, d, rows, bytes, copied);
      if |s.manifest.entries| < k.maxSteps && o.turn == GoOn && |o.live.manifest.entries| > |s.manifest.entries| {
        TickAddsUp(t, k, o.live, o.disk, rows, bytes, copied);
      }
    }
  }

  // ----- When a tick starts and when its loop goes on -----

  /** A tick is refused, with nothing written, when its limits or its names are not in order or its journal is there. */
  lemma {:induction false} BadTickRefused(t: Task, k: Tick, d: Disk)
    requires || !(1 <= k.maxSteps <= 4) || !(1 <= k.maxBytes <= 2097152) || !(1 <= t.limit <= 256)
             || !t.ledger.path.ProgressFile? || !k.name.TickFile?
             || !IsHash(t.ledger.anchor.lastHash) || !IsHash(t.ledger.evidence) || !IsHash(t.pin)
             || t.ledger.anchor.offset >= t.ledger.extent || k.name in d
             || (t.ledger.path !in d) || (t.ledger.path in d && t.ledger.codec.sha256(d[t.ledger.path]) != t.pin)
             || |k.doc.dump(Manifest(t.pin, Begun, [], None))| > 65536
    ensures TickSpec(t, k, d) == (TickRefused, d)
  {
    hide LinkInputs, LoopSpec, StateCursor, IsHash;
  }

  /** The history the tick's pin opens, and where it ends. */
  predicate StartsOn(t: Task, d: Disk, h: History, c: Cursor) {
    && Finds(t.ledger, d, Some(t.pin), h) && Bound(t.ledger, h) && |h.steps| <= 32
    && GoodSteps(h.steps, t.ledger.anchor, t.ledger.extent) && c == LastCursor(h.steps, t.ledger.anchor)
  }

  predicate GoodTick(t: Task, k: Tick) {
    && 1 <= k.maxSteps <= 4 && 1 <= k.maxBytes <= 2097152 && 1 <= t.limit <= 256
    && t.ledger.path.ProgressFile? && k.name.TickFile?
    && IsHash(t.ledger.anchor.lastHash) && IsHash(t.ledger.evidence) && IsHash(t.pin)
    && t.ledger.anchor.offset < t.ledger.extent
  }

  /** The variables of a tick that has just written its first journal. */
  function FirstLive(t: Task, k: Tick, h: History, c: Cursor): Live {
    var m := Manifest(t.pin, Begun, [], None);
    Live(m, t.ledger.codec.sha256(k.doc.dump(m)), h, c, 0, 0)
  }

  lemma {:induction false} TurnAddsEntry(t: Task, k: Tick, s: Live, d: Disk)
    requires s.copied < k.maxBytes && StepSpec(t, k, s, d).turn == GoOn
    ensures |StepSpec(t, k, s, d).live.manifest.entries| == |s.manifest.entries| + 1
  {
    hide StepSpec, StepMade;
    TurnTellsStep(t, k, s, d);
  }

  lemma {:induction false} LoopEndsTick(t: Task, k: Tick, s: Live, d: Disk)
    ensures LoopSpec(t, k, s, d).turn != GoOn
    decreases k.maxSteps - |s.manifest.entries|
  {
    hide StepSpec;
    if |s.manifest.entries| < k.maxSteps && s.copied < k.maxBytes {
      var o := StepSpec(t, k, s, d);
      if o.turn == GoOn {
        TurnAddsEntry(t, k, s, d);
        LoopEndsTick(t, k, o.live, o.disk);
      }
    }
  }

  /** A tick whose limits and names are in order, whose link loads and whose pin opens a history, starts; no other does. */
  lemma {:induction false} TickStarts(t: Task, k: Tick, d: Disk, h: History, c: Cursor)
    requires GoodTick(t, k) && k.name !in d && |k.doc.dump(Manifest(t.pin, Begun, [], None))| <= 65536
    requires t.linked ==> LoadRollover(t.ledger, t.links, d).Some?
    ensures StartsOn(t, d, h, c) ==>
              && TickSpec(t, k, d).0.Ticked?
              && var s := FirstLive(t, k, h, c);
                 var o := LoopSpec(t, k, s, d[k.name := k.doc.dump(s.manifest)]);
                 TickSpec(t, k, d) == Concluded(k, o)
    ensures (forall g: History, b: Cursor :: !StartsOn(t, d, g, b)) ==> TickSpec(t, k, d) == (TickRefused, d)
  {
    hide StateCursor, LoopSpec, GoodSteps, LoadRollover, IsHash;
    HistoryAcceptedExactly(t.ledger, h, c);
    var first := FirstLive(t, k, h, c);
    LoopEndsTick(t, k, first, d[k.name := k.doc.dump(first.manifest)]);
    match CheckedHistory(t.ledger, d, t.pin)
    case None =>
    case Some((g, b)) =>
      HistoryAcceptedExactly(t.ledger, g, b);
      assert StartsOn(t, d, g, b);
  }

  /**
    How a tick ends: with its status in the journal, or for reconciliation, with whatever was in
    flight left in the journal and the bytes it may have copied in the report.
   */
  function Concluded(k: Tick, o: StepOutcome): (TickResult, Disk) {
    var s := o.live;
    var pin := if s.manifest.entries == [] then s.manifest.initial else s.manifest.entries[|s.manifest.entries| - 1].pin;
    var ended := s.manifest.(status := if o.turn.EndWith? then o.turn.status else ReconciliationRequired);
    var asks := s.manifest.(status := ReconciliationRequired);
    var final := if |k.doc.dump(ended)| <= 65536 then ended else asks;
    (Ticked(final.status, pin, s.cursor, |s.manifest.entries|, s.copied, s.unresolved),
     if |k.doc.dump(final)| <= 65536 then o.disk[k.name := k.doc.dump(final)] else o.disk)
  }

  /** Below its limits the loop makes a turn, and goes on after each turn that its step does not end. */
  lemma {:induction false} LoopMakesTurn(t: Task, k: Tick, s: Live, d: Disk)
    requires |s.manifest.entries| < k.maxSteps && s.cursor.offset != t.ledger.extent && |s.history.steps| != 32
    requires s.copied < k.maxBytes
    ensures var o := StepSpec(t, k, s, d);
            LoopSpec(t, k, s, d) == if o.turn == GoOn then LoopSpec(t, k, o.live, o.disk) else o
  {
    hide StepSpec;
    if StepSpec(t, k, s, d).turn == GoOn { TurnAddsEntry(t, k, s, d); }
  }

  /** At its limits the loop ends, with the status that names the first it meets. */
  lemma {:induction false} LoopEnds(t: Task, k: Tick, s: Live, d: Disk)
    requires |s.manifest.entries| >= k.maxSteps || s.cursor.offset == t.ledger.extent || |s.history.steps| == 32
             || s.copied >= k.maxBytes
    ensures var status := if |s.manifest.entries| >= k.maxSteps then StepBudgetReached
                          else if s.cursor.offset == t.ledger.extent then CaptureTip
                          else if |s.history.steps| == 32 then HistoryLimitReached
                          else CopyBudgetReached;
            LoopSpec(t, k, s, d) == StepOutcome(EndWith(status), s, d)
  {
    hide StepSpec;
  }
}
