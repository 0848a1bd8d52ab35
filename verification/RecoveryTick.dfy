/**
  One tick: up to four recovery steps under a copy budget, each announced in a write-ahead
  journal before it starts and checkpointed in it after it ends.
 */
module RecoveryTick {
  import opened Foundations
  import opened ChainRows
  import opened FragmentedRow
  import opened FragmentProgress
  import opened RecoveryStep

  const COPY_RATE: nat := 262144

  /** The step a journal announces: its place, the pin it starts from and the most it may copy. */
  datatype Flight = Flight(index: nat, pin: string, bound: nat)

  datatype TickStatus =
    | Begun
    | StepInFlight
    | StepCheckpointed
    | AdmissionStopped
    | CaptureTip
    | HistoryLimitReached
    | CopyBudgetReached
    | StepRefused
    | RowWindowExhausted
    | StepBudgetReached
    | ReconciliationRequired

  datatype EntryStatus = RecordedEntry | RetainedEntry(exhausted: bool) | NotRecordedEntry | TipEntry

  /** A checkpointed step: how it ended, where it started and ended, and what it copied. */
  datatype Entry = Entry(status: EntryStatus, prior: string, pin: string, next: Cursor, records: int, bytes: int,
                         copied: nat)

  datatype Manifest = Manifest(initial: string, status: TickStatus, entries: seq<Entry>, flight: Option<Flight>)

  /** What one tick may do, and where its journal is. */
  datatype Tick = Tick(doc: Doc<Manifest>, name: Name, maxSteps: nat, maxBytes: nat)

  function LastPin(m: Manifest): string {
    if m.entries == [] then m.initial else m.entries[|m.entries| - 1].pin
  }

  function Confirmed(entries: seq<Entry>): nat {
    if entries == [] then 0 else Confirmed(entries[..|entries| - 1]) + entries[|entries| - 1].copied
  }

  function Unresolved(m: Manifest): nat {
    match m.flight
    case None => 0
    case Some(f) => f.bound
  }

  // ----- What the journal says about the progress file -----

  /** `after` is the history in `before` with exactly one step more. */
  ghost predicate OneStepBeyond(t: Task, before: Bytes, after: Bytes) {
    exists step: Step :: AddsStep(t, before, after, step)
  }

  predicate AddsStep(t: Task, before: Bytes, after: Bytes, step: Step) {
    match t.ledger.doc.load(before)
    case None => false
    case Some(h) => after == t.ledger.doc.dump(h.(steps := h.steps + [step]))
  }

  /** The contents behind a checkpointed step's two pins. */
  ghost predicate EntryOk(t: Task, e: Entry) {
    if e.status.RecordedEntry? then
      1 <= e.records <= t.limit && 0 < e.bytes
      && exists x: Bytes, y: Bytes ::
           t.ledger.codec.sha256(x) == e.prior && t.ledger.codec.sha256(y) == e.pin && OneStepBeyond(t, x, y)
    else e.pin == e.prior && e.records == 0 && e.bytes == 0
  }

  /** Each checkpointed step starts at the pin the one before it ended at, the first at the initial pin. */
  ghost predicate PinsChain(t: Task, initial: string, entries: seq<Entry>) {
    entries == []
    || var n := |entries| - 1;
       && PinsChain(t, initial, entries[..n])
       && entries[n].prior == (if n == 0 then initial else entries[n - 1].pin)
       && EntryOk(t, entries[n])
  }

  /**
    The journal accounts for the progress file: its pin is the last checkpointed one, or exactly
    one step beyond it while the journal names that very step as in flight. Confirmed and
    unresolved copies together stay within the budget.
   */
  ghost predicate Accounts(t: Task, k: Tick, m: Manifest, progress: Bytes) {
    && m.initial == t.pin && |m.entries| <= k.maxSteps && PinsChain(t, m.initial, m.entries)
    && Confirmed(m.entries) + Unresolved(m) <= k.maxBytes
    && (m.flight.Some? ==> m.flight.value.pin == LastPin(m) && m.flight.value.index == |m.entries|)
    && (t.ledger.codec.sha256(progress) == LastPin(m) || (m.flight.Some? && BeyondPin(t, LastPin(m), progress)))
  }

  ghost predicate BeyondPin(t: Task, pin: string, progress: Bytes) {
    exists x: Bytes :: t.ledger.codec.sha256(x) == pin && OneStepBeyond(t, x, progress)
  }

  /** A disk on which the tick's journal exists and accounts for the progress file. */
  ghost predicate Accounted(t: Task, k: Tick, d: Disk) {
    && k.name in d && t.ledger.path in d
    && match k.doc.load(d[k.name])
       case None => false
       case Some(m) => Accounts(t, k, m, d[t.ledger.path])
  }

  /** Every source byte copied so far is confirmed or unresolved in the journal on disk, within the budget. */
  ghost predicate Covers(k: Tick, d: Disk, spent: nat) {
    k.name in d
    && match k.doc.load(d[k.name])
       case None => false
       case Some(m) => spent <= Confirmed(m.entries) + Unresolved(m) <= k.maxBytes
  }

  /** The task of the step a tick makes under a pin and a window. */
  function StepTask(t: Task, pin: string, window: nat): Task {
    t.(pin := pin, window := window)
  }

  function Content(k: Tick, m: Manifest): Bytes {
    k.doc.dump(m)
  }

  /** A durable disk, and how many source bytes the tick has read by then at most. */
  datatype Moment = Moment(disk: Disk, read: nat)

  /** Nothing but the journal is replaced or created. */
  ghost predicate SavesJournal(k: Tick, d: Disk, d': Disk) {
    exists m: Manifest :: d' == d[k.name := Content(k, m)]
  }

  /** The step that the journal on disk announces. */
  function AnnouncedTask(t: Task, k: Tick, d: Disk): Option<Task> {
    if k.name !in d then None
    else
      match k.doc.load(d[k.name])
      case None => None
      case Some(m) => if m.flight.None? then None else Some(StepTask(t, m.flight.value.pin, m.flight.value.bound))
  }

  /**
    One thing a tick does: it saves its journal, or the step that the journal on disk announces
    reads from the source or takes one of its durable actions.
   */
  ghost predicate TickStep(t: Task, k: Tick, a: Moment, b: Moment) {
    if a.disk == b.disk then a.read == b.read || (a.read < b.read && AnnouncedTask(t, k, a.disk).Some?)
    else
      a.read == b.read
      && (SavesJournal(k, a.disk, b.disk)
          || match AnnouncedTask(t, k, a.disk) case None => false case Some(u) => Action(u, a.disk, b.disk))
  }

  /**
    What a tick passes through, one thing at a time: the disk as it was found until the journal
    exists, and from then on disks that account for the progress file and for every byte read.
   */
  ghost predicate TickRun(t: Task, k: Tick, first: Disk, ms: seq<Moment>) {
    && |ms| > 0 && ms[0] == Moment(first, 0)
    && (forall i :: 0 <= i < |ms| ==> TickMoment(t, k, first, ms, i))
    && (forall i :: 0 <= i < |ms| - 1 ==> TickMove(t, k, ms, i))
  }

  ghost predicate TickMoment(t: Task, k: Tick, first: Disk, ms: seq<Moment>, i: nat)
    requires i < |ms|
  {
    ms[i] == Moment(first, 0) || (Accounted(t, k, ms[i].disk) && Covers(k, ms[i].disk, ms[i].read))
  }

  ghost predicate TickMove(t: Task, k: Tick, ms: seq<Moment>, i: nat)
    requires i < |ms| - 1
  {
    TickStep(t, k, ms[i], ms[i + 1])
  }

  lemma {:induction false} TickRunGrows(t: Task, k: Tick, first: Disk, ms: seq<Moment>, more: seq<Moment>)
    requires TickRun(t, k, first, ms) && |more| > 0 && TickStep(t, k, ms[|ms| - 1], more[0])
    requires forall i :: 0 <= i < |more| ==> TickMoment(t, k, first, more, i)
    requires forall i :: 0 <= i < |more| - 1 ==> TickMove(t, k, more, i)
    ensures TickRun(t, k, first, ms + more)
  {
    hide Accounted, Covers, TickStep;
    var all := ms + more;
    forall i | 0 <= i < |all| ensures TickMoment(t, k, first, all, i) {
      if i < |ms| { assert TickMoment(t, k, first, ms, i); } else { assert TickMoment(t, k, first, more, i - |ms|); }
    }
    forall i | 0 <= i < |all| - 1 ensures TickMove(t, k, all, i) {
      if i < |ms| - 1 { assert TickMove(t, k, ms, i); }
      else if i >= |ms| { assert TickMove(t, k, more, i - |ms|); }
    }
  }

  // ----- What one recovery step can do to the progress file -----

  lemma {:induction false} ActionKeepsTicks(t: Task, d: Disk, d': Disk, k: Name)
    requires Action(t, d, d') && k.TickFile?
    ensures k in d <==> k in d'
    ensures k in d ==> d'[k] == d[k]
  {
    hide Appended, FragmentVerdict, JournalInputs, Open, ReadHistory, StateCursor, WantsMore;
  }

  /** An action leaves the progress file alone or adds exactly one step to the pinned history. */
  lemma {:induction false} ActionAddsOneStep(t: Task, d: Disk, d': Disk)
    requires Action(t, d, d')
    ensures t.ledger.path in d && t.ledger.path in d' && t.ledger.codec.sha256(d[t.ledger.path]) == t.pin
    ensures d'[t.ledger.path] == d[t.ledger.path] || OneStepBeyond(t, d[t.ledger.path], d'[t.ledger.path])
  {
    hide JournalInputs, LinkInputs, StateCursor, WantsMore;
    var o := Open(t, d).value;
    if RecordsStep(t, o, d, d') {
      var inputs := JournalInputs(t, d, o).value;
      RecordOnOpened(t, d, o, inputs);
      var v := FragmentVerdict(t.ledger.codec, d, AsReceipts(inputs), o.cursor, t.limit);
      assert v.Verified?;
      assert AddsStep(t, d[t.ledger.path], d'[t.ledger.path], NewStep(o.cursor, v.next, v.sha, inputs));
    }
  }

  /** A disk inside a call: the same journal, and the base progress file or one step beyond it. */
  ghost predicate InCall(t: Task, k: Tick, d: Disk, base: Disk) {
    && t.ledger.path in base && t.ledger.path in d && k.name in base && k.name in d
    && d[k.name] == base[k.name]
    && (d[t.ledger.path] == base[t.ledger.path] || OneStepBeyond(t, base[t.ledger.path], d[t.ledger.path]))
  }

  /** Adding a step changes the pin, so a call can add one only. */
  lemma {:induction false} BeyondHasOtherPin(t: Task, before: Bytes, after: Bytes)
    requires Faithful(t.ledger.doc) && CollisionFree(t.ledger.codec) && OneStepBeyond(t, before, after)
    ensures t.ledger.codec.sha256(after) != t.ledger.codec.sha256(before)
  {
    var step: Step :| AddsStep(t, before, after, step);
    var h := t.ledger.doc.load(before).value;
    assert ReadsBack(t.ledger.doc, h.(steps := h.steps + [step]));
    assert Distinguishes(t.ledger.codec, after, before);
  }

  lemma {:induction false} CallStaysInCall(t: Task, k: Tick, ds: seq<Disk>, i: nat)
    requires Faithful(t.ledger.doc) && CollisionFree(t.ledger.codec) && k.name.TickFile?
    requires DurableRun(t, ds) && i < |ds|
    requires t.ledger.path in ds[0] && k.name in ds[0] && t.ledger.codec.sha256(ds[0][t.ledger.path]) == t.pin
    ensures InCall(t, k, ds[i], ds[0])
    decreases i
  {
    hide Action, OneStepBeyond;
    if i > 0 {
      CallStaysInCall(t, k, ds, i - 1);
      assert DurableStep(t, ds, i - 1);
      if ds[i] != ds[i - 1] {
        ActionKeepsTicks(t, ds[i - 1], ds[i], k.name);
        ActionAddsOneStep(t, ds[i - 1], ds[i]);
        if ds[i - 1][t.ledger.path] != ds[0][t.ledger.path] {
          BeyondHasOtherPin(t, ds[0][t.ledger.path], ds[i - 1][t.ledger.path]);
        }
      }
    }
  }

  // ----- The tick itself -----

  /** The tick's own variables: its journal as last known, the history it last read, and the copies it counts. */
  datatype Live = Live(manifest: Manifest, journalPin: string, history: History, cursor: Cursor,
                       copied: nat, unresolved: nat)

  /** The journal on disk is the one last published, and may be replaced. */
  predicate JournalCurrent(t: Task, k: Tick, s: Live, d: Disk) {
    k.name in d && |d[k.name]| <= MAX_METADATA && t.ledger.codec.sha256(d[k.name]) == s.journalPin
  }

  /** Between steps: nothing in flight, and the files are as the variables say. */
  ghost predicate LiveOk(t: Task, k: Tick, s: Live, d: Disk) {
    && k.name in d && t.ledger.path in d
    && k.doc.load(d[k.name]) == Some(s.manifest) && s.manifest.flight == None && JournalCurrent(t, k, s, d)
    && t.ledger.codec.sha256(d[t.ledger.path]) == LastPin(s.manifest)
    && t.ledger.doc.load(d[t.ledger.path]) == Some(s.history) && StateCursor(t.ledger, s.history) == Some(s.cursor)
    && Accounts(t, k, s.manifest, d[t.ledger.path])
    && s.copied == Confirmed(s.manifest.entries) && s.unresolved == 0
  }

  predicate ManifestFits(k: Tick, m: Manifest) {
    |Content(k, m)| <= MAX_METADATA
  }

  /** The journal may be published: it fits, and what it replaces is what is expected. */
  predicate MaySave(c: Codec, k: Tick, m: Manifest, expected: Option<string>, d: Disk) {
    ManifestFits(k, m)
    && match expected
       case None => k.name !in d
       case Some(pin) => k.name in d && |d[k.name]| <= MAX_METADATA && c.sha256(d[k.name]) == pin
  }

  /** Replaces the journal if it is still the one expected, or creates it; None when that raised, whether it was published or not. */
  method SaveManifest(store: Store, c: Codec, k: Tick, m: Manifest, expected: Option<string>, quiet: bool)
      returns (saved: Option<string>)
    modifies store`files
    ensures quiet ==> (saved.Some? <==> MaySave(c, k, m, expected, old(store.files)))
    ensures quiet && saved.None? ==> store.files == old(store.files)
    ensures saved.Some? ==> saved.value == c.sha256(Content(k, m)) && ManifestFits(k, m)
    ensures store.files == old(store.files) || store.files == old(store.files)[k.name := Content(k, m)]
    ensures saved.Some? ==> store.files == old(store.files)[k.name := Content(k, m)]
    ensures expected.None? && k.name in old(store.files) ==> saved.None? && store.files == old(store.files)
  {
    var payload := Content(k, m);
    if |payload| > MAX_METADATA { return None; }
    match expected {
      case None => if k.name in store.files { return None; }
      case Some(pin) =>
        if k.name !in store.files || |store.files[k.name]| > MAX_METADATA || c.sha256(store.files[k.name]) != pin {
          return None;
        }
    }
    if !quiet { if * { return None; } }
    store.files := store.files[k.name := payload];
    if !quiet { if * { return None; } }
    return Some(c.sha256(payload));
  }

  /** A journal that accounts for the progress file may be written. */
  lemma {:induction false} SavedAccounts(t: Task, k: Tick, m: Manifest, d: Disk, spent: nat)
    requires Faithful(k.doc) && k.name.TickFile? && t.ledger.path.ProgressFile? && t.ledger.path in d
    requires Accounts(t, k, m, d[t.ledger.path]) && spent <= Confirmed(m.entries) + Unresolved(m)
    ensures Accounted(t, k, d[k.name := Content(k, m)]) && Covers(k, d[k.name := Content(k, m)], spent)
    ensures k.doc.load(Content(k, m)) == Some(m)
  {
    hide PinsChain;
    assert ReadsBack(k.doc, m);
  }

  /** The journal of a step about to start. */
  function Announced(m: Manifest, window: nat): Manifest {
    m.(status := StepInFlight, flight := Some(Flight(|m.entries|, LastPin(m), window)))
  }

  /** The journal of a step that has ended. */
  function Checkpointed(m: Manifest, e: Entry): Manifest {
    m.(status := StepCheckpointed, entries := m.entries + [e], flight := None)
  }

  lemma {:induction false} AnnouncedAccounts(t: Task, k: Tick, s: Live, d: Disk, window: nat)
    requires LiveOk(t, k, s, d) && window <= k.maxBytes - s.copied
    ensures Accounts(t, k, Announced(s.manifest, window), d[t.ledger.path])
  {
  }

  /** Wherever the step stops, the announced journal accounts for what it left. */
  lemma {:induction false} CallAccounts(t: Task, k: Tick, m: Manifest, base: Disk, d: Disk, window: nat)
    requires InCall(t, k, d, base) && Accounts(t, k, Announced(m, window), base[t.ledger.path])
    requires t.ledger.codec.sha256(base[t.ledger.path]) == LastPin(m)
    ensures Accounts(t, k, Announced(m, window), d[t.ledger.path])
  {
    hide OneStepBeyond, EntryOk;
    if d[t.ledger.path] != base[t.ledger.path] { assert BeyondPin(t, LastPin(m), d[t.ledger.path]); }
  }

  /** A checked step extends the chain of pins and keeps to the budget. */
  lemma {:induction false} CheckpointAccounts(t: Task, k: Tick, m: Manifest, base: Disk, d: Disk, window: nat, e: Entry,
                                              before: History, after: History)
    requires InCall(t, k, d, base) && Accounts(t, k, Announced(m, window), base[t.ledger.path]) && m.flight == None
    requires t.ledger.codec.sha256(base[t.ledger.path]) == LastPin(m) && |m.entries| < k.maxSteps
    requires e.prior == LastPin(m) && e.pin == t.ledger.codec.sha256(d[t.ledger.path]) && e.copied <= window
    requires t.ledger.doc.load(base[t.ledger.path]) == Some(before) && t.ledger.doc.load(d[t.ledger.path]) == Some(after)
    requires if e.status.RecordedEntry? then 1 <= e.records <= t.limit && 0 < e.bytes && |after.steps| == |before.steps| + 1
             else e.pin == e.prior && e.records == 0 && e.bytes == 0
    ensures Accounts(t, k, Checkpointed(m, e), d[t.ledger.path])
    ensures Confirmed(m.entries + [e]) == Confirmed(m.entries) + e.copied
  {
    hide BeyondPin, EntryOk, InCall, OneStepBeyond;
    var entries := m.entries + [e];
    assert entries[..|entries| - 1] == m.entries;
    CheckedEntry(t, k, base, d, e, before, after);
  }

  lemma {:induction false} CheckedEntry(t: Task, k: Tick, base: Disk, d: Disk, e: Entry, before: History, after: History)
    requires InCall(t, k, d, base)
    requires e.prior == t.ledger.codec.sha256(base[t.ledger.path]) && e.pin == t.ledger.codec.sha256(d[t.ledger.path])
    requires t.ledger.doc.load(base[t.ledger.path]) == Some(before) && t.ledger.doc.load(d[t.ledger.path]) == Some(after)
    requires if e.status.RecordedEntry? then 1 <= e.records <= t.limit && 0 < e.bytes && |after.steps| == |before.steps| + 1
             else e.pin == e.prior && e.records == 0 && e.bytes == 0
    ensures EntryOk(t, e)
  {
    hide OneStepBeyond;
    if e.status.RecordedEntry? {
      assert before != after;
      assert OneStepBeyond(t, base[t.ledger.path], d[t.ledger.path]);
    }
  }

  /** How a step ended for the tick: go on, end with a status, or stop for reconciliation. */
  datatype Turn = GoOn | EndWith(status: TickStatus) | Threw

  /** How a step or a tick went on, and what it left. */
  datatype StepOutcome = StepOutcome(turn: Turn, live: Live, disk: Disk)

  /** What the entry of a step that returned reports. */
  function EntryFor(s: Live, r: StepResult, pin: string, cursor: Cursor, copied: nat): Entry {
    Entry(StatusOf(r), LastPin(s.manifest), pin, cursor, cursor.sequence - s.cursor.sequence,
          cursor.offset - s.cursor.offset, copied)
  }

  function StatusOf(r: StepResult): EntryStatus {
    match r
    case StepRecorded(_, _) => RecordedEntry
    case WindowRetained(exhausted) => RetainedEntry(exhausted)
    case TipReached => TipEntry
    case _ => NotRecordedEntry
  }

  /** A refused step and an exhausted row window end the tick. */
  function TurnAfter(e: Entry): Turn {
    match e.status
    case NotRecordedEntry => EndWith(StepRefused)
    case RetainedEntry(exhausted) => if exhausted then EndWith(RowWindowExhausted) else GoOn
    case _ => GoOn
  }

  /** A stop for reconciliation: the journal on disk, and the one the tick may still write, account for everything. */
  ghost predicate Stopped(t: Task, k: Tick, s: Live, d: Disk, spent: nat) {
    && t.ledger.path in d && Accounted(t, k, d) && Accounts(t, k, s.manifest, d[t.ledger.path])
    && Covers(k, d, spent) && spent <= s.copied + s.unresolved <= k.maxBytes
    && spent <= Confirmed(s.manifest.entries) + Unresolved(s.manifest)
  }

  /** A tick's run that ends at the present disk, with so many bytes read. */
  ghost predicate RunTo(t: Task, k: Tick, first: Disk, run: seq<Moment>, d: Disk, read: nat) {
    TickRun(t, k, first, run) && run[|run| - 1] == Moment(d, read)
  }

  lemma {:induction false} RunStarts(t: Task, k: Tick, d: Disk)
    ensures RunTo(t, k, d, [Moment(d, 0)], d, 0)
  {
    assert TickMoment(t, k, d, [Moment(d, 0)], 0);
  }

  /** A save, published or not. */
  lemma {:induction false} RunToSaved(t: Task, k: Tick, first: Disk, run: seq<Moment>, d: Disk, d': Disk, m: Manifest, read: nat)
    requires RunTo(t, k, first, run, d, read) && (d' == d || d' == d[k.name := Content(k, m)])
    requires d' == d || (Accounted(t, k, d') && Covers(k, d', read))
    ensures RunTo(t, k, first, run + [Moment(d', read)], d', read)
  {
    hide Accounted, Covers;
    var more := [Moment(d', read)];
    if d' == d { assert TickMoment(t, k, first, run, |run| - 1); }
    assert TickMoment(t, k, first, more, 0);
    if d' != d { assert SavesJournal(k, d, d'); }
    TickRunGrows(t, k, first, run, more);
  }

  /** The history under a pin with its cursor; None when reading or checking it raises. */
  function CheckedHistory(l: Ledger, d: Disk, pin: string): (found: Option<(History, Cursor)>)
    ensures found.Some? ==>
              && l.path in d && l.codec.sha256(d[l.path]) == pin && l.doc.load(d[l.path]) == Some(found.value.0)
              && StateCursor(l, found.value.0) == Some(found.value.1)
  {
    match ReadHistory(l, d, Some(pin))
    case None => None
    case Some(h) =>
      match StateCursor(l, h)
      case None => None
      case Some(cursor) => Some((h, cursor))
  }

  /** Reads the progress file back and decodes it under the pin the step reported. */
  method ReadChecked(store: Store, l: Ledger, pin: string) returns (found: Option<(History, Cursor)>)
    ensures found == CheckedHistory(l, store.files, pin)
  {
    var read := ReadHistory(l, store.files, Some(pin));
    if read.None? { return None; }
    var end := CheckState(l, read.value);
    if end.None? { return None; }
    return Some((read.value, end.value));
  }

  /** What holds of a tick's arguments throughout. */
  ghost predicate TickLaws(t: Task, k: Tick, source: Bytes) {
    && Faithful(t.journals) && Faithful(t.ledger.doc) && Faithful(k.doc) && CollisionFree(t.ledger.codec)
    && k.name.TickFile? && t.ledger.path.ProgressFile?
    && (t.ledger.extent <= |source| && |t.captured| == t.ledger.extent ==> source[..t.ledger.extent] == t.captured)
  }

  /** The tick's variables while an announced step is under way. */
  function InFlight(t: Task, k: Tick, s: Live, window: nat): Live {
    var m := Announced(s.manifest, window);
    s.(manifest := m, journalPin := t.ledger.codec.sha256(Content(k, m)), unresolved := window)
  }

  /** Publishes the announcement; when that raised, nothing has started. */
  method Announce(store: Store, t: Task, k: Tick, s: Live, window: nat, quiet: bool, ghost first: Disk, ghost before: seq<Moment>)
      returns (ok: bool, s': Live, ghost run: seq<Moment>)
    requires Faithful(k.doc) && k.name.TickFile? && t.ledger.path.ProgressFile?
    requires LiveOk(t, k, s, store.files) && window <= k.maxBytes - s.copied
    requires RunTo(t, k, first, before, store.files, s.copied)
    modifies store`files
    ensures RunTo(t, k, first, run, store.files, s.copied)
    ensures !ok ==> Stopped(t, k, s', store.files, s.copied)
    ensures quiet ==> (ok <==> ManifestFits(k, Announced(s.manifest, window)))
    ensures quiet && !ok ==>
              && s' == s.(manifest := Announced(s.manifest, window)) && store.files == old(store.files)
              && JournalCurrent(t, k, s', store.files)
    ensures ok ==>
              && s' == InFlight(t, k, s, window)
              && ManifestFits(k, s'.manifest)
              && store.files == old(store.files)[k.name := Content(k, s'.manifest)]
              && k.doc.load(store.files[k.name]) == Some(s'.manifest)
              && Accounts(t, k, s'.manifest, store.files[t.ledger.path])
  {
    hide Accounts, RunTo;
    ghost var found := store.files;
    var announced := Announced(s.manifest, window);
    AnnouncedAccounts(t, k, s, found, window);
    SavedAccounts(t, k, announced, found, s.copied);
    s' := s.(manifest := announced);
    var saved := SaveManifest(store, t.ledger.codec, k, announced, Some(s.journalPin), quiet);
    assert Accounted(t, k, store.files);
    RunToSaved(t, k, first, before, found, store.files, announced, s.copied);
    run := before + [Moment(store.files, s.copied)];
    if saved.None? { return false, s', run; }
    s' := s'.(journalPin := saved.value, unresolved := window);
    ok := true;
  }

  /** The disks of a call, with so many bytes read. */
  function Moments(ds: seq<Disk>, read: nat): (ms: seq<Moment>)
    ensures |ms| == |ds| && forall i :: 0 <= i < |ds| ==> ms[i] == Moment(ds[i], read)
  {
    seq(|ds|, i requires 0 <= i < |ds| => Moment(ds[i], read))
  }

  /** Every durable disk of an announced step is accounted for by the announcement, and what it reads is covered. */
  lemma {:induction false} CallDiskIsAccounted(t: Task, k: Tick, m: Manifest, window: nat, u: Task, call: seq<Disk>, i: nat,
                                               spent: nat)
    requires Faithful(t.ledger.doc) && CollisionFree(t.ledger.codec) && k.name.TickFile?
    requires u == StepTask(t, LastPin(m), window) && DurableRun(u, call) && i < |call|
    requires t.ledger.path in call[0] && k.name in call[0]
    requires t.ledger.codec.sha256(call[0][t.ledger.path]) == LastPin(m)
    requires k.doc.load(call[0][k.name]) == Some(Announced(m, window)) && spent <= Confirmed(m.entries) + window
    requires Accounts(t, k, Announced(m, window), call[0][t.ledger.path])
    ensures InCall(t, k, call[i], call[0]) && Accounts(t, k, Announced(m, window), call[i][t.ledger.path])
    ensures Accounted(t, k, call[i]) && Covers(k, call[i], spent) && AnnouncedTask(t, k, call[i]) == Some(u)
  {
    hide BeyondPin, DurableRun, OneStepBeyond, PinsChain;
    CallStaysInCall(u, k, call, i);
    SameCall(t, u, k, call[i], call[0]);
    CallAccounts(t, k, m, call[0], call[i], window);
  }

  /** An announced step goes on with the tick's run. */
  lemma {:induction false} CallRunIsTick(t: Task, k: Tick, first: Disk, run: seq<Moment>, before: nat, m: Manifest,
                                         window: nat, u: Task, call: seq<Disk>, read: nat)
    requires Faithful(t.ledger.doc) && CollisionFree(t.ledger.codec) && k.name.TickFile?
    requires u == StepTask(t, LastPin(m), window) && DurableRun(u, call)
    requires t.ledger.path in call[0] && k.name in call[0]
    requires t.ledger.codec.sha256(call[0][t.ledger.path]) == LastPin(m)
    requires k.doc.load(call[0][k.name]) == Some(Announced(m, window))
    requires before == Confirmed(m.entries) && read <= window
    requires Accounts(t, k, Announced(m, window), call[0][t.ledger.path])
    requires RunTo(t, k, first, run, call[0], before)
    ensures InCall(t, k, call[|call| - 1], call[0])
    ensures t.ledger.path in call[|call| - 1] && Accounts(t, k, Announced(m, window), call[|call| - 1][t.ledger.path])
    ensures RunTo(t, k, first, run + Moments(call, before + read), call[|call| - 1], before + read)
  {
    hide Accounted, Accounts, Action, AnnouncedTask, Covers, InCall;
    var more := Moments(call, before + read);
    forall i | 0 <= i < |call|
      ensures TickMoment(t, k, first, more, i) && AnnouncedTask(t, k, call[i]) == Some(u)
    {
      CallDiskIsAccounted(t, k, m, window, u, call, i, before + read);
    }
    CallDiskIsAccounted(t, k, m, window, u, call, |call| - 1, before + read);
    PathInCall(t, k, call[|call| - 1], call[0]);
    forall i | 0 <= i < |more| - 1 ensures TickMove(t, k, more, i) {
      assert DurableStep(u, call, i);
    }
    TickRunGrows(t, k, first, run, more);
    assert (run + more)[|run + more| - 1] == more[|more| - 1];
  }

  /** What is in a call does not depend on the pin or the window. */
  lemma {:induction false} SameCall(t: Task, u: Task, k: Tick, d: Disk, base: Disk)
    requires u == t.(pin := u.pin, window := u.window) && InCall(u, k, d, base)
    ensures InCall(t, k, d, base)
  {
    if d[t.ledger.path] != base[t.ledger.path] {
      var step: Step :| AddsStep(u, base[t.ledger.path], d[t.ledger.path], step);
      assert AddsStep(t, base[t.ledger.path], d[t.ledger.path], step);
    }
  }

  /** An announced step that returned: what it left is checked and checkpointed. */
  ghost predicate Returned(t: Task, k: Tick, s: Live, base: Disk, d: Disk, window: nat, copied: nat) {
    && LiveFile(t, s, base) && s.manifest.flight == None && s.copied == Confirmed(s.manifest.entries)
    && InCall(t, k, d, base) && k.doc.load(d[k.name]) == Some(Announced(s.manifest, window))
    && Accounts(t, k, Announced(s.manifest, window), base[t.ledger.path])
    && Accounts(t, k, Announced(s.manifest, window), d[t.ledger.path])
    && copied <= window <= k.maxBytes - s.copied && |s.manifest.entries| < k.maxSteps
  }

  /** The progress file a tick's variables describe. */
  ghost predicate LiveFile(t: Task, s: Live, d: Disk) {
    && t.ledger.path in d && t.ledger.codec.sha256(d[t.ledger.path]) == LastPin(s.manifest)
    && t.ledger.doc.load(d[t.ledger.path]) == Some(s.history)
  }

  /** Whatever happens after the step returned, the announcement still accounts for it. */
  lemma {:induction false} ReturnedIsCovered(t: Task, k: Tick, s: Live, s': Live, base: Disk, d: Disk, window: nat, copied: nat)
    requires Returned(t, k, s, base, d, window, copied)
    requires s'.manifest == Announced(s.manifest, window) && s'.copied == s.copied && s'.unresolved == window
    ensures Stopped(t, k, s', d, s.copied + copied)
  {
    hide PinsChain, BeyondPin, OneStepBeyond;
  }

  /** The entry of a step that returned, once the progress file bears it out; None when a check raises. */
  function CheckedStep(t: Task, d: Disk, s: Live, r: StepResult, copied: nat): (found: Option<(Entry, History, Cursor)>)
    ensures found.Some? ==>
              && var (e, h, c) := found.value;
              && t.ledger.path in d && t.ledger.doc.load(d[t.ledger.path]) == Some(h)
              && StateCursor(t.ledger, h) == Some(c)
              && e == EntryFor(s, r, t.ledger.codec.sha256(d[t.ledger.path]), c, copied)
              && (r.StepRecorded? ==> e.pin == r.pin && c == r.next)
              && (if e.status.RecordedEntry? then
                    1 <= e.records <= t.limit && 0 < e.bytes && |h.steps| == |s.history.steps| + 1
                  else
                    e.pin == e.prior && e.records == 0 && e.bytes == 0)
  {
    var nextPin := if r.StepRecorded? then r.pin else LastPin(s.manifest);
    match CheckedHistory(t.ledger, d, nextPin)
    case None => None
    case Some((h, c)) =>
      var e := EntryFor(s, r, nextPin, c, copied);
      if c != (if r.StepRecorded? then r.next else s.cursor) then None
      else if r.StepRecorded? && !(1 <= e.records <= t.limit && 0 < e.bytes && |h.steps| == |s.history.steps| + 1)
      then None else Some((e, h, c))
  }

  /** Checks the result against the progress file, and makes the step's entry. */
  method CheckStep(store: Store, t: Task, s: Live, r: StepResult, copied: nat)
      returns (found: Option<(Entry, History, Cursor)>)
    requires !Raised(r)
    ensures found == CheckedStep(t, store.files, s, r, copied)
  {
    var nextPin := if r.StepRecorded? then r.pin else LastPin(s.manifest);
    var read := ReadChecked(store, t.ledger, nextPin);
    if read.None? { return None; }
    var (h, c) := read.value;
    if c != (if r.StepRecorded? then r.next else s.cursor) { return None; }
    var e := EntryFor(s, r, nextPin, c, copied);
    if r.StepRecorded? && !(1 <= e.records <= t.limit && 0 < e.bytes && |h.steps| == |s.history.steps| + 1) {
      return None;
    }
    return Some((e, h, c));
  }

  /** What is left once a step has returned and nothing stops the tick. */
  function CheckpointSpec(t: Task, k: Tick, s: Live, announced: Live, r: StepResult, copied: nat, d: Disk): StepOutcome {
    match CheckedStep(t, d, s, r, copied)
    case None => StepOutcome(Threw, announced, d)
    case Some((e, h, c)) =>
      var m := Checkpointed(s.manifest, e);
      if !ManifestFits(k, m) then StepOutcome(Threw, announced, d)
      else StepOutcome(TurnAfter(e), Live(m, t.ledger.codec.sha256(Content(k, m)), h, c, s.copied + copied, 0),
                       d[k.name := Content(k, m)])
  }

  method Checkpoint(store: Store, t: Task, k: Tick, s: Live, announced: Live, r: StepResult, copied: nat, window: nat,
                    quiet: bool, ghost base: Disk, ghost first: Disk, ghost before: seq<Moment>)
      returns (turn: Turn, s': Live, ghost run: seq<Moment>)
    requires Faithful(k.doc) && k.name.TickFile? && t.ledger.path.ProgressFile? && !Raised(r)
    requires announced.manifest == Announced(s.manifest, window)
    requires announced.copied == s.copied && announced.unresolved == window
    requires JournalCurrent(t, k, announced, store.files)
    requires Returned(t, k, s, base, store.files, window, copied) 
    requires RunTo(t, k, first, before, store.files, s.copied + copied)
    modifies store`files
    ensures RunTo(t, k, first, run, store.files, s.copied + copied)
    ensures turn.Threw? ==> Stopped(t, k, s', store.files, s.copied + copied)
    ensures !turn.Threw? ==> LiveOk(t, k, s', store.files) && s'.copied == s.copied + copied && Advanced(s, s', turn)
    ensures quiet ==> StepOutcome(turn, s', store.files) == CheckpointSpec(t, k, s, announced, r, copied, old(store.files))
    ensures quiet && turn.Threw? ==> JournalCurrent(t, k, s', store.files)
  {
    hide Accounts, Accounted, CheckedStep, Confirmed, Covers, InCall, LiveOk, RunTo, StateCursor, Stopped;
    s' := announced;
    run := before;
    ReturnedIsCovered(t, k, s, s', base, store.files, window, copied);
    var checked := CheckStep(store, t, s, r, copied);
    if checked.None? { return Threw, s', run; }
    var (e, h, c) := checked.value;
    ghost var found := store.files;
    PathInCall(t, k, found, base);
    CheckpointAccounts(t, k, s.manifest, base, found, window, e, s.history, h);
    var m := Checkpointed(s.manifest, e);
    SavedAccounts(t, k, m, found, s.copied + copied);
    var saved := SaveManifest(store, t.ledger.codec, k, m, Some(announced.journalPin), quiet);
    RunToSaved(t, k, first, before, found, store.files, m, s.copied + copied);
    run := before + [Moment(store.files, s.copied + copied)];
    if saved.None? {
      if store.files != found { CheckpointCovers(t, k, s, s', base, found, window, copied, e); }
      return Threw, s', run;
    }
    s' := Live(m, saved.value, h, c, s.copied + copied, 0);
    turn := TurnAfter(e);
    CheckpointIsLive(t, k, s', found);
  }

  /** One more entry, which decides how the tick goes on. */
  predicate Advanced(s: Live, s': Live, turn: Turn) {
    && |s'.manifest.entries| == |s.manifest.entries| + 1
    && s'.manifest.entries[..|s.manifest.entries|] == s.manifest.entries
    && turn == TurnAfter(s'.manifest.entries[|s.manifest.entries|])
  }

  lemma {:induction false} PathInCall(t: Task, k: Tick, d: Disk, base: Disk)
    requires InCall(t, k, d, base)
    ensures t.ledger.path in base && t.ledger.path in d && k.name in d
  {
  }

  /** A checkpoint that was published although saving it raised. */
  lemma {:induction false} CheckpointCovers(t: Task, k: Tick, s: Live, s': Live, base: Disk, d: Disk, window: nat,
                                            copied: nat, e: Entry)
    requires Faithful(k.doc) && k.name.TickFile? && t.ledger.path.ProgressFile?
    requires Returned(t, k, s, base, d, window, copied) && e.copied == copied
    requires Confirmed(s.manifest.entries + [e]) == Confirmed(s.manifest.entries) + e.copied
    requires s'.manifest == Announced(s.manifest, window) && s'.copied == s.copied && s'.unresolved == window
    requires Accounts(t, k, Checkpointed(s.manifest, e), d[t.ledger.path])
    ensures Stopped(t, k, s', d[k.name := Content(k, Checkpointed(s.manifest, e))], s.copied + copied)
  {
    hide PinsChain, BeyondPin, OneStepBeyond;
    assert ReadsBack(k.doc, Checkpointed(s.manifest, e));
  }

  lemma {:induction false} CheckpointIsLive(t: Task, k: Tick, s: Live, d: Disk)
    requires Faithful(k.doc) && k.name.TickFile? && t.ledger.path.ProgressFile?
    requires LiveFile(t, s, d) && StateCursor(t.ledger, s.history) == Some(s.cursor)
    requires Accounts(t, k, s.manifest, d[t.ledger.path]) && s.manifest.flight == None
    requires s.copied == Confirmed(s.manifest.entries) && s.unresolved == 0
    requires ManifestFits(k, s.manifest) && s.journalPin == t.ledger.codec.sha256(Content(k, s.manifest))
    ensures LiveOk(t, k, s, d[k.name := Content(k, s.manifest)])
  {
    hide Accounts;
    assert ReadsBack(k.doc, s.manifest);
  }

  function StepWindow(k: Tick, s: Live): nat
    requires s.copied < k.maxBytes
  {
    Min(MAX_WINDOW, k.maxBytes - s.copied)
  }

  /** One turn when nothing stops it. */
  function StepSpec(t: Task, k: Tick, s: Live, d: Disk): StepOutcome
    requires s.copied < k.maxBytes
  {
    var window := StepWindow(k, s);
    var m := Announced(s.manifest, window);
    if !ManifestFits(k, m) then StepOutcome(Threw, s.(manifest := m), d)
    else
      var c := Advance(StepTask(t, LastPin(s.manifest), window), d[k.name := Content(k, m)]);
      if Raised(c.result) then StepOutcome(Threw, InFlight(t, k, s, window), c.disk)
      else CheckpointSpec(t, k, s, InFlight(t, k, s, window), c.result, c.copied, c.disk)
  }

  /** One turn of the loop: announce, make the step, check what it left, checkpoint. */
  method RunStep(store: Store, t: Task, k: Tick, source: Bytes, s: Live, quiet: bool, ghost first: Disk, ghost before: seq<Moment>)
      returns (turn: Turn, s': Live, read: nat, ghost run: seq<Moment>)
    requires TickLaws(t, k, source) && LiveOk(t, k, s, store.files)
    requires |s.manifest.entries| < k.maxSteps && s.copied < k.maxBytes
    requires RunTo(t, k, first, before, store.files, s.copied)
    modifies store
    ensures store.locks == old(store.locks) && RunTo(t, k, first, run, store.files, s.copied + read)
    ensures turn.Threw? ==> Stopped(t, k, s', store.files, s.copied + read)
    ensures !turn.Threw? ==> LiveOk(t, k, s', store.files) && s'.copied == s.copied + read && Advanced(s, s', turn)
    ensures quiet && FreeFor(store.locks, t, source) ==>
              StepOutcome(turn, s', store.files) == StepSpec(t, k, s, old(store.files))
    ensures quiet && turn.Threw? ==> JournalCurrent(t, k, s', store.files)
  {
    hide Accounts, Advance, Advanced, CheckpointSpec, Confirmed, DurableRun, InCall, Returned, RunTo, StateCursor, Stopped;
    read := 0;
    var window := StepWindow(k, s);
    var ok;
    ok, s', run := Announce(store, t, k, s, window, quiet, first, before);
    if !ok { return Threw, s', 0, run; }
    ghost var base := store.files;
    ghost var announcedRun := run;
    var u := StepTask(t, LastPin(s.manifest), window);
    var left := 60.0;
    if !quiet { left := *; }
    var r, copied;
    ghost var call;
    r, copied, read, call := AdvanceFragmentStep(store, u, source, COPY_RATE, left, quiet);
    CallRunIsTick(t, k, first, announcedRun, s.copied, s.manifest, window, u, call, read);
    run := announcedRun + Moments(call, s.copied + read);
    CallReturned(t, k, s, base, store.files, window, read);
    SameJournal(t, k, s', base, store.files);
    if Raised(r) {
      ReturnedIsCovered(t, k, s, s', base, store.files, window, read);
      return Threw, s', read, run;
    }
    turn, s', run := Checkpoint(store, t, k, s, s', r, copied, window, quiet, base, first, run);
  }

  /** No other step is under way, and the source reaches the captured extent. */
  predicate FreeFor(locks: set<Lock>, t: Task, source: Bytes) {
    StepLock !in locks && SegmentLock !in locks && t.ledger.extent <= |source|
  }

  lemma {:induction false} SameJournal(t: Task, k: Tick, s: Live, base: Disk, d: Disk)
    requires InCall(t, k, d, base) && JournalCurrent(t, k, s, base)
    ensures JournalCurrent(t, k, s, d)
  {
  }

  lemma {:induction false} CallReturned(t: Task, k: Tick, s: Live, base: Disk, d: Disk, window: nat, copied: nat)
    requires LiveFile(t, s, base) && s.manifest.flight == None && s.copied == Confirmed(s.manifest.entries)
    requires InCall(t, k, d, base) && k.doc.load(base[k.name]) == Some(Announced(s.manifest, window))
    requires Accounts(t, k, Announced(s.manifest, window), base[t.ledger.path])
    requires Accounts(t, k, Announced(s.manifest, window), d[t.ledger.path])
    requires copied <= window <= k.maxBytes - s.copied && |s.manifest.entries| < k.maxSteps
    ensures Returned(t, k, s, base, d, window, copied)
  {
    hide Accounts;
  }

  /** What each status of a tick that ended by itself means. */
  predicate StatusFits(t: Task, k: Tick, status: TickStatus, s: Live) {
    var entries := s.manifest.entries;
    match status
    case AdmissionStopped => true
    case CaptureTip => s.cursor.offset == t.ledger.extent
    case HistoryLimitReached => |s.history.steps| == MAX_STEPS
    case CopyBudgetReached => s.copied == k.maxBytes
    case StepRefused => entries != [] && entries[|entries| - 1].status == NotRecordedEntry
    case RowWindowExhausted => entries != [] && entries[|entries| - 1].status == RetainedEntry(true)
    case StepBudgetReached => |entries| == k.maxSteps
    case _ => false
  }

  /** A refused step or an exhausted row window ends the tick. */
  predicate EndsTick(e: Entry) {
    e.status == NotRecordedEntry || e.status == RetainedEntry(true)
  }

  ghost predicate NoneEndsTick(entries: seq<Entry>) {
    forall i :: 0 <= i < |entries| ==> !EndsTick(entries[i])
  }

  /** Only the last entry can have ended the tick; if it did the status says how, and otherwise the status is another. */
  ghost predicate EntriesFit(status: TickStatus, entries: seq<Entry>) {
    if entries != [] && EndsTick(entries[|entries| - 1]) then
      NoneEndsTick(entries[..|entries| - 1])
      && status == if entries[|entries| - 1].status == NotRecordedEntry then StepRefused else RowWindowExhausted
    else
      NoneEndsTick(entries) && status != StepRefused && status != RowWindowExhausted
  }

  lemma {:induction false} OneMoreEntry(s: Live, s': Live, turn: Turn)
    requires Advanced(s, s', turn)
    ensures |s'.manifest.entries| == |s.manifest.entries| + 1
    ensures turn.EndWith? ==> turn.status == StepRefused || turn.status == RowWindowExhausted
    ensures turn == EndWith(StepRefused) ==> s'.manifest.entries[|s.manifest.entries|].status == NotRecordedEntry
    ensures turn == EndWith(RowWindowExhausted) ==> s'.manifest.entries[|s.manifest.entries|].status == RetainedEntry(true)
  {
  }

  /** One more entry on a tick that went on: it ends the tick exactly when the turn says so. */
  lemma {:induction false} TurnFitsEntries(s: Live, s': Live, turn: Turn)
    requires NoneEndsTick(s.manifest.entries) && Advanced(s, s', turn)
    ensures if turn == GoOn then NoneEndsTick(s'.manifest.entries)
            else turn.EndWith? && EntriesFit(turn.status, s'.manifest.entries)
  {
    var n := |s.manifest.entries|;
    assert s'.manifest.entries[..n] == s.manifest.entries;
    forall i | 0 <= i < n ensures !EndsTick(s'.manifest.entries[i]) {
      assert s'.manifest.entries[i] == s.manifest.entries[i];
    }
  }

  /** Between steps everything is accounted for. */
  lemma {:induction false} LiveIsStopped(t: Task, k: Tick, s: Live, d: Disk)
    requires LiveOk(t, k, s, d)
    ensures Stopped(t, k, s, d, s.copied)
  {
    hide PinsChain;
  }

  /** The budget is never overrun, so no budget left means all of it used. */
  lemma {:induction false} LiveWithinBudget(t: Task, k: Tick, s: Live, d: Disk)
    requires LiveOk(t, k, s, d)
    ensures s.copied <= k.maxBytes && |s.manifest.entries| <= k.maxSteps
  {
    hide PinsChain;
  }

  /** The steps of a tick when nothing stops it. */
  function LoopSpec(t: Task, k: Tick, s: Live, d: Disk): StepOutcome
    decreases k.maxSteps - |s.manifest.entries|
  {
    if |s.manifest.entries| >= k.maxSteps then StepOutcome(EndWith(StepBudgetReached), s, d)
    else if s.cursor.offset == t.ledger.extent then StepOutcome(EndWith(CaptureTip), s, d)
    else if |s.history.steps| == MAX_STEPS then StepOutcome(EndWith(HistoryLimitReached), s, d)
    else if s.copied >= k.maxBytes then StepOutcome(EndWith(CopyBudgetReached), s, d)
    else
      var o := StepSpec(t, k, s, d);
      if o.turn == GoOn && |o.live.manifest.entries| > |s.manifest.entries| then LoopSpec(t, k, o.live, o.disk) else o
  }

  /** Steps until a status ends the tick or one of them raises. */
  method StepLoop(store: Store, t: Task, k: Tick, source: Bytes, start: Live, quiet: bool, ghost first: Disk, ghost before: seq<Moment>)
      returns (turn: Turn, s: Live, read: nat, ghost run: seq<Moment>)
    requires TickLaws(t, k, source) && LiveOk(t, k, start, store.files)
    requires start.manifest.entries == [] && start.copied == 0 && RunTo(t, k, first, before, store.files, 0)
    modifies store
    ensures store.locks == old(store.locks) && RunTo(t, k, first, run, store.files, read) && turn != GoOn
    ensures turn.Threw? ==> Stopped(t, k, s, store.files, read)
    ensures turn.EndWith? ==>
              && LiveOk(t, k, s, store.files) && s.copied == read
              && StatusFits(t, k, turn.status, s) && EntriesFit(turn.status, s.manifest.entries)
    ensures quiet && FreeFor(store.locks, t, source) ==>
              StepOutcome(turn, s, store.files) == LoopSpec(t, k, start, old(store.files))
    ensures quiet && turn.Threw? ==> JournalCurrent(t, k, s, store.files)
  {
    hide Advanced, LiveOk, RunTo, StepSpec, Stopped;
    s := start;
    run := before;
    read := 0;
    var index := 0;
    while index < k.maxSteps
      invariant store.locks == old(store.locks) && RunTo(t, k, first, run, store.files, read)
      invariant LiveOk(t, k, s, store.files) && s.copied == read && |s.manifest.entries| == index <= k.maxSteps
      invariant NoneEndsTick(s.manifest.entries)
      invariant quiet && FreeFor(store.locks, t, source) ==>
                  LoopSpec(t, k, start, old(store.files)) == LoopSpec(t, k, s, store.files)
    {
      LiveIsStopped(t, k, s, store.files);
      LiveWithinBudget(t, k, s, store.files);
      if !quiet { if * { return Threw, s, read, run; } }
      if !quiet { if * { return EndWith(AdmissionStopped), s, read, run; } }
      if s.cursor.offset == t.ledger.extent { return EndWith(CaptureTip), s, read, run; }
      if |s.history.steps| == MAX_STEPS { return EndWith(HistoryLimitReached), s, read, run; }
      if s.copied >= k.maxBytes { return EndWith(CopyBudgetReached), s, read, run; }
      var copied;
      ghost var prior := s;
      turn, s, copied, run := RunStep(store, t, k, source, s, quiet, first, run);
      read := read + copied;
      if !turn.Threw? {
        OneMoreEntry(prior, s, turn);
        TurnFitsEntries(prior, s, turn);
      }
      if turn != GoOn { return turn, s, read, run; }
      index := index + 1;
    }
    return EndWith(StepBudgetReached), s, read, run;
  }

  /** Ticked: the tick ran to its end or to reconciliation. TickRefused: the call raised. */
  datatype TickResult =
    | TickRefused
    | Ticked(status: TickStatus, pin: string, cursor: Cursor, steps: nat, copied: nat, unresolved: nat)

  function ResultOf(status: TickStatus, s: Live): TickResult {
    Ticked(status, LastPin(s.manifest), s.cursor, |s.manifest.entries|, s.copied, s.unresolved)
  }

  /** A tick that ended by itself: its journal is final, and the progress file is as last checkpointed. */
  ghost predicate Ended(t: Task, k: Tick, r: TickResult, d: Disk, read: nat) {
    && r.Ticked? && r.copied == read && r.unresolved == 0
    && k.name in d && t.ledger.path in d && t.ledger.codec.sha256(d[t.ledger.path]) == r.pin
    && match k.doc.load(d[k.name])
       case None => false
       case Some(m) =>
         m.status == r.status && m.flight == None && LastPin(m) == r.pin && |m.entries| == r.steps
         && EntriesFit(m.status, m.entries)
         && Confirmed(m.entries) == read
         && exists h: History :: t.ledger.doc.load(d[t.ledger.path]) == Some(h)
              && StateCursor(t.ledger, h) == Some(r.cursor)
              && StatusFits(t, k, r.status, Live(m, "", h, r.cursor, read, 0))
  }

  lemma {:induction false} EndedWith(t: Task, k: Tick, s: Live, d: Disk, status: TickStatus)
    requires Faithful(k.doc) && k.name.TickFile? && t.ledger.path.ProgressFile?
    requires LiveOk(t, k, s, d) && StatusFits(t, k, status, s) && EntriesFit(status, s.manifest.entries)
    ensures var final := s.manifest.(status := status);
            && Accounts(t, k, final, d[t.ledger.path])
            && Ended(t, k, ResultOf(status, s), d[k.name := Content(k, final)], s.copied)
            && Stopped(t, k, s, d[k.name := Content(k, final)], s.copied)
  {
    hide PinsChain;
    assert ReadsBack(k.doc, s.manifest.(status := status));
  }

  /** The journal of a tick that needs reconciliation. */
  lemma {:induction false} ReconciledAccounts(t: Task, k: Tick, s: Live, d: Disk, read: nat)
    requires Faithful(k.doc) && k.name.TickFile? && t.ledger.path.ProgressFile?
    requires Stopped(t, k, s, d, read)
    ensures var m := s.manifest.(status := ReconciliationRequired);
            && Stopped(t, k, s, d[k.name := Content(k, m)], read)
            && Accounted(t, k, d[k.name := Content(k, m)]) && Covers(k, d[k.name := Content(k, m)], read)
  {
    hide PinsChain, BeyondPin;
    assert ReadsBack(k.doc, s.manifest.(status := ReconciliationRequired));
  }

  /** The end of a tick when nothing stops it: the status it ended with, if its journal still fits. */
  function ConcludeSpec(k: Tick, turn: Turn, s: Live, d: Disk): (TickResult, Disk) {
    if turn.EndWith? && ManifestFits(k, s.manifest.(status := turn.status)) then
      (ResultOf(turn.status, s), d[k.name := Content(k, s.manifest.(status := turn.status))])
    else
      var m := s.manifest.(status := ReconciliationRequired);
      (ResultOf(ReconciliationRequired, s), if ManifestFits(k, m) then d[k.name := Content(k, m)] else d)
  }

  /** Ends the tick: publishes the final status, or asks for reconciliation without guessing what was published. */
  method Conclude(store: Store, t: Task, k: Tick, turn: Turn, s: Live, read: nat, quiet: bool, ghost first: Disk, ghost before: seq<Moment>)
      returns (r: TickResult, ghost run: seq<Moment>)
    requires Faithful(k.doc) && k.name.TickFile? && t.ledger.path.ProgressFile? && turn != GoOn
    requires RunTo(t, k, first, before, store.files, read)
    requires turn.Threw? ==> Stopped(t, k, s, store.files, read)
    requires turn.EndWith? ==>
               && LiveOk(t, k, s, store.files) && s.copied == read
               && StatusFits(t, k, turn.status, s) && EntriesFit(turn.status, s.manifest.entries)
    modifies store`files
    ensures RunTo(t, k, first, run, store.files, read)
    ensures r.Ticked? && (r.status == ReconciliationRequired || Ended(t, k, r, store.files, read))
    ensures Stopped(t, k, s, store.files, read)
    ensures r.copied == s.copied && r.unresolved == s.unresolved && r.pin == LastPin(s.manifest)
    ensures quiet && (turn.Threw? ==> JournalCurrent(t, k, s, old(store.files))) ==>
              (r, store.files) == ConcludeSpec(k, turn, s, old(store.files))
  {
    hide Accounted, Covers, Ended, LiveOk, RunTo, StatusFits, Stopped;
    run := before;
    ghost var found := store.files;
    if turn.EndWith? {
      LiveIsStopped(t, k, s, found);
      EndedWith(t, k, s, found, turn.status);
      var final := s.manifest.(status := turn.status);
      LivePath(t, k, s, found);
      SavedAccounts(t, k, final, found, read);
      var saved := SaveManifest(store, t.ledger.codec, k, final, Some(s.journalPin), quiet);
      RunToSaved(t, k, first, run, found, store.files, final, read);
      run := run + [Moment(store.files, read)];
      if saved.Some? {
        if store.files == found { assert found == found[k.name := Content(k, final)]; }
        return ResultOf(turn.status, s), run;
      }
    }
    ghost var raised := store.files;
    ReconciledAccounts(t, k, s, raised, read);
    var m := s.manifest.(status := ReconciliationRequired);
    var pin := SaveManifest(store, t.ledger.codec, k, m, Some(s.journalPin), quiet);
    RunToSaved(t, k, first, run, raised, store.files, m, read);
    run := run + [Moment(store.files, read)];
    return ResultOf(ReconciliationRequired, s), run;
  }

  lemma {:induction false} LivePath(t: Task, k: Tick, s: Live, d: Disk)
    requires LiveOk(t, k, s, d)
    ensures t.ledger.path in d && JournalCurrent(t, k, s, d) && s.copied == Confirmed(s.manifest.entries)
  {
  }

  predicate TickPolicyOk(t: Task, k: Tick) {
    1 <= k.maxSteps <= 4 && 1 <= k.maxBytes <= 2097152 && 1 <= t.limit <= 256
    && t.ledger.path.ProgressFile? && k.name.TickFile?
    && IsHash(t.ledger.anchor.lastHash) && IsHash(t.ledger.evidence) && IsHash(t.pin)
    && t.ledger.anchor.offset < t.ledger.extent
  }

  /** A whole tick when nothing stops it. */
  function TickSpec(t: Task, k: Tick, d: Disk): (TickResult, Disk) {
    var m := Manifest(t.pin, Begun, [], None);
    if !TickPolicyOk(t, k) || k.name in d || LinkInputs(t, d).None? || !ManifestFits(k, m) then (TickRefused, d)
    else
      match CheckedHistory(t.ledger, d, t.pin)
      case None => (TickRefused, d)
      case Some((h, c)) =>
        var s := Live(m, t.ledger.codec.sha256(Content(k, m)), h, c, 0, 0);
        var o := LoopSpec(t, k, s, d[k.name := Content(k, m)]);
        ConcludeSpec(k, o.turn, o.live, o.disk)
  }

  /**
    One tick. Whatever stops it, wherever: from the moment its journal exists, every durable disk
    is accounted for by the journal; no more than the budget is copied, and the journal covers
    every source byte read. An existing journal is never touched.
   */
  method RunFragmentTick(store: Store, t: Task, k: Tick, source: Bytes, quiet: bool)
      returns (r: TickResult, read: nat, ghost run: seq<Moment>)
    requires TickPolicyOk(t, k) ==> TickLaws(t, k, source)
    modifies store
    ensures store.locks == old(store.locks)
    ensures RunTo(t, k, old(store.files), run, store.files, read)
    ensures !TickPolicyOk(t, k) || TickLock in old(store.locks) || k.name in old(store.files) ==>
              r == TickRefused && store.files == old(store.files)
    ensures r == TickRefused ==> read == 0
    ensures r.Ticked? ==>
              && Accounted(t, k, store.files) && Covers(k, store.files, read)
              && read <= r.copied + r.unresolved <= k.maxBytes
              && (r.status == ReconciliationRequired || Ended(t, k, r, store.files, read))
    ensures quiet && TickLock !in old(store.locks) && FreeFor(old(store.locks), t, source) ==>
              (r, store.files) == TickSpec(t, k, old(store.files))
  {
    hide Accounts, Ended;
    run := [Moment(store.files, 0)];
    read := 0;
    RunStarts(t, k, store.files);
    if !TickPolicyOk(t, k) { return TickRefused, 0, run; }
    if !quiet { if * { return TickRefused, 0, run; } }
    if TickLock in store.locks { return TickRefused, 0, run; }
    store.locks := store.locks + {TickLock};
    r, read, run := TickLocked(store, t, k, source, quiet);
    store.locks := store.locks - {TickLock};
  }

  method TickLocked(store: Store, t: Task, k: Tick, source: Bytes, quiet: bool)
      returns (r: TickResult, read: nat, ghost run: seq<Moment>)
    requires TickPolicyOk(t, k) && TickLaws(t, k, source)
    modifies store
    ensures store.locks == old(store.locks)
    ensures RunTo(t, k, old(store.files), run, store.files, read)
    ensures k.name in old(store.files) ==> r == TickRefused && store.files == old(store.files)
    ensures r == TickRefused ==> read == 0
    ensures r.Ticked? ==>
              && Accounted(t, k, store.files) && Covers(k, store.files, read)
              && read <= r.copied + r.unresolved <= k.maxBytes
              && (r.status == ReconciliationRequired || Ended(t, k, r, store.files, read))
    ensures quiet && FreeFor(store.locks, t, source) ==> (r, store.files) == TickSpec(t, k, old(store.files))
  {
    hide Accounts, Ended, LinkInputs, LiveOk, LoopSpec, StatusFits, Stopped;
    ghost var first := store.files;
    run := [Moment(store.files, 0)];
    read := 0;
    RunStarts(t, k, first);
    if k.name in store.files || LinkInputs(t, store.files).None? { return TickRefused, 0, run; }
    var found := ReadChecked(store, t.ledger, t.pin);
    if found.None? { return TickRefused, 0, run; }
    var m := Manifest(t.pin, Begun, [], None);
    FirstAccounts(t, k, m, first);
    SavedAccounts(t, k, m, first, 0);
    var saved := SaveManifest(store, t.ledger.codec, k, m, None, quiet);
    RunToSaved(t, k, first, run, first, store.files, m, 0);
    run := run + [Moment(store.files, 0)];
    if saved.None? { return TickRefused, 0, run; }
    var s := Live(m, saved.value, found.value.0, found.value.1, 0, 0);
    CheckpointIsLive(t, k, s, first);
    var turn;
    turn, s, read, run := StepLoop(store, t, k, source, s, quiet, first, run);
    r, run := Conclude(store, t, k, turn, s, read, quiet, first, run);
    StoppedCovers(t, k, s, store.files, read);
  }

  lemma {:induction false} FirstAccounts(t: Task, k: Tick, m: Manifest, d: Disk)
    requires t.ledger.path in d && t.ledger.codec.sha256(d[t.ledger.path]) == t.pin
    requires m == Manifest(t.pin, Begun, [], None)
    ensures Accounts(t, k, m, d[t.ledger.path])
  {
  }

  lemma {:induction false} StoppedCovers(t: Task, k: Tick, s: Live, d: Disk, spent: nat)
    requires Stopped(t, k, s, d, spent)
    ensures Accounted(t, k, d) && Covers(k, d, spent) && spent <= s.copied + s.unresolved <= k.maxBytes
  {
    hide Accounts;
  }
}
