/**
  Whole recovery runs: any number of calls, interrupted anywhere, each made with the pin of the
  progress file as it then is, so that one attempt follows another. Each call chooses its own
  window and record limit, as the tick that drives the calls does.
 */
module RecoveryRuns {
  import opened Foundations
  import opened ChainRows
  import opened FragmentedRow
  import opened FragmentProgress
  import opened FragmentRollover
  import opened RecoveryStep
  import opened RetryRefinement
  import opened BoundedRows

  /** The task of a call with the pin of the progress file as it is, and with its own window. */
  function At(t: Task, d: Disk, window: nat): Task
    requires t.ledger.path in d
  {
    t.(pin := t.ledger.codec.sha256(d[t.ledger.path]), window := window)
  }

  function Limited(t: Task, limit: nat): Task {
    t.(limit := limit)
  }

  predicate WindowOk(window: nat) {
    1 <= window <= MAX_WINDOW
  }

  /**
    Any number of calls, each with whatever pin, window and record limit, and ticks that save
    their journals between them: the disks they leave, one action at a time, and the window each
    action was taken with.
   */
  ghost predicate RecoveryRun(t: Task, ds: seq<Disk>, ws: seq<nat>) {
    |ds| == |ws| + 1 && (forall i :: 0 <= i < |ws| ==> RecoveryMove(t, ds, ws, i)) && HexPins(t, ds)
  }

  ghost predicate RecoveryMove(t: Task, ds: seq<Disk>, ws: seq<nat>, i: nat)
    requires |ds| == |ws| + 1 && i < |ws|
  {
    Goes(t, ds[i], ds[i + 1], ws[i])
  }

  ghost predicate Goes(t: Task, d: Disk, d': Disk, window: nat) {
    d' == d || SavesTick(d, d') || Moves(t, d, d', window)
  }

  ghost predicate SavesTick(d: Disk, d': Disk) {
    exists title: string :: TickSaved(d, d', title)
  }

  predicate TickSaved(d: Disk, d': Disk, title: string) {
    TickFile(title) in d' && d' == d[TickFile(title) := d'[TickFile(title)]]
  }

  /** Each call chooses its own record limit. */
  ghost predicate Moves(t: Task, d: Disk, d': Disk, window: nat) {
    exists limit: nat :: MovesUnder(Limited(t, limit), d, d', window)
  }

  predicate MovesUnder(t: Task, d: Disk, d': Disk, window: nat) {
    t.ledger.path in d && Action(At(t, d, window), d, d')
  }

  /** The pins that occur are hexadecimal digests, as the program checks. */
  ghost predicate HexPins(t: Task, ds: seq<Disk>) {
    forall i :: 0 <= i < |ds| ==> HexPinAt(t, ds, i)
  }

  predicate HexPinAt(t: Task, ds: seq<Disk>, i: nat)
    requires i < |ds|
  {
    HexPin(t, ds[i])
  }

  predicate HexPin(t: Task, d: Disk) {
    t.ledger.path in d ==> HasHexDigest(t.ledger.codec, d[t.ledger.path])
  }

  function Repeated(window: nat, n: nat): (ws: seq<nat>)
    ensures |ws| == n && forall i :: 0 <= i < n ==> ws[i] == window
  {
    seq(n, i => window)
  }

  /**
    Only the pin of the file as it is allows an action, so whatever a call was given, the disks it
    passes through are a recovery run with its window.
   */
  lemma {:induction false} CallIsRecoveryRun(t: Task, u: Task, ds: seq<Disk>)
    requires u == t.(pin := u.pin, window := u.window, limit := u.limit) && DurableRun(u, ds) && HexPins(t, ds)
    ensures RecoveryRun(t, ds, Repeated(u.window, |ds| - 1))
  {
    hide HexPins;
    var ws := Repeated(u.window, |ds| - 1);
    forall i | 0 <= i < |ws| ensures RecoveryMove(t, ds, ws, i) {
      assert DurableStep(u, ds, i);
      if ds[i + 1] != ds[i] { ActionIsMove(t, u, ds[i], ds[i + 1]); }
    }
  }

  lemma {:induction false} ActionIsMove(t: Task, u: Task, d: Disk, d': Disk)
    requires u == t.(pin := u.pin, window := u.window, limit := u.limit) && Action(u, d, d')
    ensures Moves(t, d, d', u.window)
  {
    hide CreatesJournal, StagesWindow, AppendsInput, RecordsStep, StateCursor, LinkInputs;
    assert At(Limited(t, u.limit), d, u.window) == u;
    assert MovesUnder(Limited(t, u.limit), d, d', u.window);
  }

  /** One run after another is a run. */
  lemma {:induction false} RunsJoin(t: Task, a: seq<Disk>, v: seq<nat>, b: seq<Disk>, w: seq<nat>)
    requires RecoveryRun(t, a, v) && RecoveryRun(t, b, w) && b[0] == a[|a| - 1]
    ensures RecoveryRun(t, a + b[1..], v + w)
  {
    hide Goes, HexPin;
    var ds, ws := a + b[1..], v + w;
    forall i | 0 <= i < |ws| ensures RecoveryMove(t, ds, ws, i) {
      if i < |v| { assert RecoveryMove(t, a, v, i); } else { assert RecoveryMove(t, b, w, i - |v|); }
    }
    forall i | 0 <= i < |ds| ensures HexPinAt(t, ds, i) {
      if i < |a| { assert HexPinAt(t, a, i); } else { assert HexPinAt(t, b, i - |a| + 1); }
    }
  }

  // ----- Attempt keys never come back -----

  /**
    The key of an attempt on an ancestor's history or with another window, or on an earlier state
    of this history, of fewer than `n` steps.
   */
  ghost predicate Older(t: Task, key: string, n: nat) {
    exists b: Binding, x: Bytes :: KeyFrom(t, key, b, x) && Earlier(t, b, x, n)
  }

  predicate Earlier(t: Task, b: Binding, x: Bytes, n: nat) {
    b.window != t.window
    || b.anchor.sequence < t.ledger.anchor.sequence
    || (b.anchor == t.ledger.anchor && StepsIn(t, x) < n)
  }

  /** Some earlier file `x` had the digest the attempt was pinned to. */
  ghost predicate KeyFrom(t: Task, key: string, b: Binding, x: Bytes) {
    key == t.ledger.codec.sha256(t.bindings.dump(b)) && b.pin == t.ledger.codec.sha256(x)
  }

  function StepsIn(t: Task, x: Bytes): nat {
    match t.ledger.doc.load(x)
    case None => 0
    case Some(h) => |h.steps|
  }

  /** Every staged window and journal belongs to the current attempt or to an earlier one. */
  ghost predicate KeysAged(t: Task, d: Disk, o: Opened) {
    forall n: Name :: FileAged(t, d, o, n)
  }

  ghost predicate FileAged(t: Task, d: Disk, o: Opened, n: Name) {
    n in d && (n.StageFile? || n.JournalFile?) ==> n.key == o.key || Older(t, n.key, |o.history.steps|)
  }

  /** The key of the current attempt can only have come from the current progress file. */
  lemma {:induction false} KeyNamesItsHistory(t: Task, d: Disk, o: Opened, b: Binding, x: Bytes)
    requires CollisionFree(t.ledger.codec) && Faithful(t.bindings)
    requires Open(t, d) == Some(o) && KeyFrom(t, o.key, b, x)
    ensures b == BindingOf(t, o.cursor, o.seeds) && x == d[t.ledger.path] && t.ledger.doc.load(x) == Some(o.history)
  {
    var mine := BindingOf(t, o.cursor, o.seeds);
    assert Distinguishes(t.ledger.codec, t.bindings.dump(b), t.bindings.dump(mine));
    assert ReadsBack(t.bindings, b) && ReadsBack(t.bindings, mine);
    assert Distinguishes(t.ledger.codec, x, d[t.ledger.path]);
  }

  lemma {:induction false} CurrentKeyIsNew(t: Task, d: Disk, o: Opened, n: nat)
    requires CollisionFree(t.ledger.codec) && Faithful(t.bindings)
    requires Open(t, d) == Some(o) && n <= |o.history.steps|
    ensures !Older(t, o.key, n)
  {
    forall b: Binding, x: Bytes | KeyFrom(t, o.key, b, x)
      ensures !Earlier(t, b, x, n)
    {
      KeyNamesItsHistory(t, d, o, b, x);
    }
  }

  // ----- The invariant of a run -----

  /** The furthest source byte held: the next window's end when it is on disk, else the last input's. */
  function Furthest(t: Task, d: Disk, o: Opened, inputs: seq<Input>): nat {
    if StageFile(o.key, |inputs|) in d && Frontier(o, inputs) < |t.captured| then NextInput(t, o, inputs).end
    else Frontier(o, inputs)
  }

  /** Each window past the seeds was taken because what was held before it wanted more. */
  ghost predicate Grown(t: Task, d: Disk, o: Opened, inputs: seq<Input>) {
    forall k :: |o.seeds| <= k < |inputs| ==> GrownAt(t, d, o, inputs, k)
  }

  predicate GrownAt(t: Task, d: Disk, o: Opened, inputs: seq<Input>, k: nat)
    requires k < |inputs|
  {
    WantsMore(t, d, o, inputs[..k])
  }

  ghost predicate AttemptInv(t: Task, d: Disk, o: Opened, inputs: seq<Input>) {
    && AttemptOk(t, o, inputs)
    && InputsHeld(t, d, inputs)
    && |o.seeds| <= 1 && Grown(t, d, o, inputs)
    && OrphansExact(t, d, o, inputs)
    && (StageFile(o.key, |inputs|) in d ==> WantsMore(t, d, o, inputs))
  }

  ghost predicate AttemptAged(t: Task, d: Disk, o: Opened, inputs: seq<Input>) {
    && Open(t, d) == Some(o) && KeysAged(t, d, o) && SeedsForeign(o)
    && StepsSound(t.ledger.codec, t.captured, o.history.steps)
    && HeldInputs(t, d, o) == Some(inputs) && AttemptInv(t, d, o, inputs)
    && (|o.history.steps| == MAX_STEPS ==> inputs == o.seeds && KeysOlder(t, d, o))
  }

  /** The attempt of a call with this task is in order. */
  ghost predicate AttemptInOrder(t: Task, d: Disk) {
    match Open(t, d)
    case None => false
    case Some(o) =>
      match HeldInputs(t, d, o)
      case None => false
      case Some(inputs) => AttemptAged(t, d, o, inputs)
  }

  /** The invariant of every reachable disk: whatever window the next call chooses, its attempt is in order. */
  ghost predicate Inv(t: Task, d: Disk) {
    t.ledger.path in d && forall w: nat :: InvFor(t, d, w)
  }

  ghost predicate InvFor(t: Task, d: Disk, w: nat)
    requires t.ledger.path in d
  {
    WindowOk(w) ==> AttemptInOrder(At(t, d, w), d)
  }

  /** The laws the metadata encodings and the digest are taken to obey. */
  ghost predicate Laws(t: Task) {
    Faithful(t.ledger.doc) && Faithful(t.bindings) && Faithful(t.journals)
    && CollisionFree(t.ledger.codec) && HexRanges(t.ledger.codec, t.captured)
  }

  // Each action, in turn, keeps the attempt's invariant.

  lemma {:induction false} CreateKeepsAttempt(t: Task, d: Disk, d': Disk, o: Opened)
    requires Laws(t) && Open(t, d) == Some(o) && CreatesJournal(t, o, d, d')
    requires AttemptInv(t, d, o, o.seeds)
    ensures Open(t, d') == Some(o) && HeldInputs(t, d', o) == Some(o.seeds)
    ensures AttemptInv(t, d', o, o.seeds) && Furthest(t, d', o, o.seeds) == Furthest(t, d, o, o.seeds)
  {
    OpenFrame(t, d, Journal(o), d'[Journal(o)]);
    JournalReadsBack(t, d, o, o.seeds);
    HeldFrame(t, d, d', o, o.seeds);
  }

  /** What was wanted before each window stays so while the raw files stay. */
  lemma {:induction false} GrownFrame(t: Task, d: Disk, d': Disk, o: Opened, inputs: seq<Input>)
    requires Grown(t, d, o, inputs)
    requires forall r :: r in inputs ==> r.name in d && r.name in d' && d'[r.name] == d[r.name]
    ensures Grown(t, d', o, inputs)
  {
    hide VerdictOn;
    forall k | |o.seeds| <= k < |inputs| ensures GrownAt(t, d', o, inputs, k) {
      assert GrownAt(t, d, o, inputs, k);
      forall r | r in inputs[..k] ensures r.name in d && r.name in d' && d'[r.name] == d[r.name] { assert r in inputs; }
      VerdictFrame(t, d, d', o, inputs[..k]);
    }
  }

  /** Raw files that stay leave inputs held and wants unchanged. */
  lemma {:induction false} HeldFrame(t: Task, d: Disk, d': Disk, o: Opened, inputs: seq<Input>)
    requires InputsHeld(t, d, inputs)
    requires forall r :: r in inputs ==> r.name in d && r.name in d' && d'[r.name] == d[r.name]
    ensures InputsHeld(t, d', inputs)
    ensures VerdictOn(t, d', o, inputs) == VerdictOn(t, d, o, inputs)
    ensures WantsMore(t, d', o, inputs) == WantsMore(t, d, o, inputs)
  {
    JoinedFrame(t.ledger.codec, d, d', inputs);
    VerdictFrame(t, d, d', o, inputs);
    forall i | 0 <= i < |inputs| ensures FileMatches(d', t.captured, inputs[i]) {
      assert FileMatches(d, t.captured, inputs[i]) && inputs[i] in inputs;
    }
  }

  lemma {:induction false} HeldNames(t: Task, d: Disk, inputs: seq<Input>)
    requires InputsHeld(t, d, inputs)
    ensures forall r :: r in inputs ==> r.name in d
  {
    forall r | r in inputs ensures r.name in d {
      var i :| 0 <= i < |inputs| && inputs[i] == r;
      assert FileMatches(d, t.captured, inputs[i]);
    }
  }

  lemma {:induction false} StageKeepsAttempt(t: Task, d: Disk, d': Disk, o: Opened, inputs: seq<Input>)
    requires Open(t, d) == Some(o) && JournalInputs(t, d, o) == Some(inputs) && StagesWindow(t, o, d, d')
    requires AttemptInv(t, d, o, inputs)
    ensures Open(t, d') == Some(o) && HeldInputs(t, d', o) == Some(inputs)
    ensures AttemptInv(t, d', o, inputs)
    ensures Furthest(t, d, o, inputs) == Frontier(o, inputs)
    ensures Frontier(o, inputs) < |t.captured| && Furthest(t, d', o, inputs) == NextInput(t, o, inputs).end
  {
    var next := NextInput(t, o, inputs);
    WindowOnDisk(t, o, d, inputs);
    HeldNames(t, d, inputs);
    HeldFrame(t, d, d', o, inputs);
    GrownFrame(t, d, d', o, inputs);
  }

  lemma {:induction false} AppendKeepsAttempt(t: Task, d: Disk, d': Disk, o: Opened, inputs: seq<Input>)
    requires Laws(t) && SeedsForeign(o)
    requires Open(t, d) == Some(o) && JournalInputs(t, d, o) == Some(inputs) && AppendsInput(t, o, d, d')
    requires AttemptInv(t, d, o, inputs)
    ensures Frontier(o, inputs) < |t.captured| && |inputs| < 2
    ensures var more := inputs + [NextInput(t, o, inputs)];
            && Open(t, d') == Some(o) && HeldInputs(t, d', o) == Some(more)
            && AttemptInv(t, d', o, more)
            && Furthest(t, d', o, more) == Furthest(t, d, o, inputs)
  {
    hide FragmentVerdict, Grown, InputsHeld, InputsOk, Open, StagedOk;
    var more := inputs + [NextInput(t, o, inputs)];
    OpenFrame(t, d, Journal(o), d'[Journal(o)]);
    OpenMeansPolicy(t, d);
    AppendedIsHeld(t, d, d', o, inputs);
    RawInputs(t, o, inputs);
    AppendedIsGrown(t, d, d', o, inputs);
    JournalReadsBack(t, d, o, more);
  }

  lemma {:induction false} AppendedIsGrown(t: Task, d: Disk, d': Disk, o: Opened, inputs: seq<Input>)
    requires Grown(t, d, o, inputs) && InputsHeld(t, d, inputs) && WantsMore(t, d, o, inputs)
    requires Frontier(o, inputs) < |t.captured| && forall r :: r in inputs ==> IsRawName(r.name)
    requires Journal(o) in d' && d' == d[Journal(o) := d'[Journal(o)]]
    ensures Grown(t, d', o, inputs + [NextInput(t, o, inputs)])
  {
    hide InputsHeld, VerdictOn, NextInput;
    var more := inputs + [NextInput(t, o, inputs)];
    HeldNames(t, d, inputs);
    GrownFrame(t, d, d', o, inputs);
    HeldFrame(t, d, d', o, inputs);
    forall k | |o.seeds| <= k < |more| ensures GrownAt(t, d', o, more, k) {
      if k < |inputs| {
        assert more[..k] == inputs[..k] && GrownAt(t, d', o, inputs, k);
      } else {
        assert more[..k] == inputs;
      }
    }
  }

  lemma {:induction false} AppendedIsHeld(t: Task, d: Disk, d': Disk, o: Opened, inputs: seq<Input>)
    requires HexRanges(t.ledger.codec, t.captured) && StepPolicyOk(t) && SeedsForeign(o)
    requires AttemptOk(t, o, inputs) && |inputs| < 2 && Frontier(o, inputs) < |t.captured| && InputsHeld(t, d, inputs)
    requires var next := NextInput(t, o, inputs); next.name in d && d[next.name] == RangeOf(t, next)
    requires Journal(o) in d' && d' == d[Journal(o) := d'[Journal(o)]]
    ensures var more := inputs + [NextInput(t, o, inputs)];
            AttemptOk(t, o, more) && InputsHeld(t, d', more)
  {
    var next := NextInput(t, o, inputs);
    var more := inputs + [next];
    if inputs != [] { NamesDiffer(t, o, inputs); }
    NextInputsOk(t, o, inputs);
    AppendedAttemptOk(t, o, inputs);
    NextIsHeld(t, d, o, inputs);
    assert d[next.name := RangeOf(t, next)] == d;
    HeldNames(t, d, more);
    HeldFrame(t, d, d', o, more);
  }

  // ----- Recording starts the next attempt -----

  /** The suffix of a step's inputs that holds the new cursor is in order for the next step, or the cursor is past them. */
  lemma {:induction false} SuffixInOrder(inputs: seq<Input>, start: Cursor, cursor: Cursor, extent: nat)
    requires InputsOk(inputs, start, extent) && start.offset <= cursor.offset <= inputs[|inputs| - 1].end
    ensures var suffix := SuffixOf(inputs, cursor);
            if suffix == [] then cursor.offset == inputs[|inputs| - 1].end
            else InputsOk(suffix, cursor, extent) && suffix[|suffix| - 1] == inputs[|inputs| - 1]
                 && forall r :: r in suffix ==> r in inputs
  {
    if |inputs| == 2 {
      assert inputs[1..] == [inputs[1]] && inputs[1..][1..] == [];
    } else {
      assert inputs[1..] == [];
    }
  }

  lemma {:induction false} SuffixHeld(t: Task, d: Disk, inputs: seq<Input>, cursor: Cursor)
    requires |inputs| <= 2 && InputsHeld(t, d, inputs)
    ensures InputsHeld(t, d, SuffixOf(inputs, cursor))
  {
    if |inputs| == 2 {
      assert inputs[1..] == [inputs[1]] && inputs[1..][1..] == [];
      assert FileMatches(d, t.captured, inputs[1]);
    } else if |inputs| == 1 {
      assert inputs[1..] == [];
    }
    assert Joined(t.ledger.codec, d, []) == Some([]);
  }

  /** The step a recording action added, sound because the fragments it verified hold their source ranges. */
  ghost predicate RecordedAs(t: Task, d: Disk, d': Disk, o: Opened, inputs: seq<Input>, step: Step) {
    && inputs != [] && step.inputs == inputs && o.cursor.offset <= step.next.offset <= inputs[|inputs| - 1].end
    && Appended(t.ledger, o.history, step) == Some(LongerHistory(o, step))
    && d' == d[t.ledger.path := t.ledger.doc.dump(LongerHistory(o, step))]
    && StepSound(t.ledger.codec, t.captured, step)
    && VerdictOn(t, d, o, inputs).Verified? && step.next == VerdictOn(t, d, o, inputs).next
  }

  lemma {:induction false} RecordedStep(t: Task, d: Disk, d': Disk, o: Opened, inputs: seq<Input>) returns (step: Step)
    requires Open(t, d) == Some(o) && JournalInputs(t, d, o) == Some(inputs)
    requires RecordsStep(t, o, d, d') && InputsHeld(t, d, inputs)
    ensures inputs != [] && InputsOk(inputs, o.cursor, t.ledger.extent)
    ensures VerdictOn(t, d, o, inputs).Verified? && RecordedAs(t, d, d', o, inputs, step)
  {
    RecordOnOpened(t, d, o, inputs);
    var v := VerdictOn(t, d, o, inputs);
    assert v.Verified?;
    VerifiedIsExtension(t.ledger.codec, d, t.captured, AsReceipts(inputs), o.cursor, t.limit);
    step := NewStep(o.cursor, v.next, v.sha, inputs);
    assert Appended(t.ledger, o.history, step) == Some(LongerHistory(o, step));
  }

  lemma {:induction false} LongerIsSound(t: Task, o: Opened, step: Step)
    requires StepsSound(t.ledger.codec, t.captured, o.history.steps) && StepSound(t.ledger.codec, t.captured, step)
    ensures StepsSound(t.ledger.codec, t.captured, LongerHistory(o, step).steps)
  {
    var steps := LongerHistory(o, step).steps;
    forall i | 0 <= i < |steps| ensures StepSound(t.ledger.codec, t.captured, steps[i]) {
      if i < |o.history.steps| { assert steps[i] == o.history.steps[i]; }
    }
  }

  lemma {:induction false} NextOpening(t: Task, now: Task, d: Disk, d': Disk, o: Opened, step: Step)
    requires Laws(t) && Open(t, d) == Some(o) && WindowOk(now.window)
    requires Appended(t.ledger, o.history, step) == Some(LongerHistory(o, step))
    requires d' == d[t.ledger.path := t.ledger.doc.dump(LongerHistory(o, step))] && now == At(t, d', now.window)
    requires HexPin(t, d')
    ensures Open(now, d').Some?
    ensures var o' := Open(now, d').value;
            o'.history == LongerHistory(o, step) && o'.cursor == step.next
            && o'.seeds == SuffixOf(step.inputs, step.next)
  {
    var longer := LongerHistory(o, step);
    assert ReadsBack(t.ledger.doc, longer);
    assert ReadHistory(now.ledger, d', Some(now.pin)) == Some(longer);
    LongerCursor(t, o, step);
    LinkSurvivesRecord(t, now, d, d');
    OpensAs(now, d', longer, step.next);
    LongerRetains(o, step);
  }

  lemma {:induction false} OpensAs(t: Task, d: Disk, h: History, cursor: Cursor)
    requires StepPolicyOk(t) && ReadHistory(t.ledger, d, Some(t.pin)) == Some(h)
    requires StateCursor(t.ledger, h) == Some(cursor) && LinkInputs(t, d).Some? && h.steps != []
    ensures Open(t, d).Some? && var o := Open(t, d).value; o.history == h && o.cursor == cursor && o.seeds == Retained(h, cursor)
  {
  }

  lemma {:induction false} LongerRetains(o: Opened, step: Step)
    ensures Retained(LongerHistory(o, step), step.next) == SuffixOf(step.inputs, step.next)
  {
  }

  lemma {:induction false} LongerCursor(t: Task, o: Opened, step: Step)
    requires StateCursor(t.ledger, LongerHistory(o, step)).Some?
    ensures StateCursor(t.ledger, LongerHistory(o, step)) == Some(step.next)
  {
    var longer := LongerHistory(o, step);
    assert longer.steps[|longer.steps| - 1] == step;
  }

  lemma {:induction false} LinkSurvivesRecord(t: Task, now: Task, d: Disk, d': Disk)
    requires now == t.(pin := now.pin, window := now.window) && StepPolicyOk(t)
    requires t.ledger.path in d' && d' == d[t.ledger.path := d'[t.ledger.path]]
    ensures LinkInputs(now, d') == LinkInputs(t, d)
  {
    if t.linked {
      var raw := ReadMetadata(d, LinkFile(t.ledger.path.title), t.ledger.evidence, t.ledger.codec);
      assert raw == ReadMetadata(d', LinkFile(t.ledger.path.title), t.ledger.evidence, t.ledger.codec);
      if raw.Some? && t.links.load(raw.value).Some? {
        var link := t.links.load(raw.value).value;
        if link.parentTitle != t.ledger.path.title {
          assert ReadHistory(ParentLedger(t.ledger, link), d, Some(link.parentPin))
              == ReadHistory(ParentLedger(t.ledger, link), d', Some(link.parentPin));
        }
      }
    }
  }

  /** An attempt none of whose files exist yet, and whose seeds are held, starts out in order. */
  lemma {:induction false} FreshAttempt(t: Task, d: Disk, o: Opened)
    requires Laws(t) && Open(t, d) == Some(o) && KeysOlder(t, d, o)
    requires SeedsOk(t, d, o)
    ensures HeldInputs(t, d, o) == Some(o.seeds)
    ensures KeysAged(t, d, o) && SeedsForeign(o) && AttemptInv(t, d, o, o.seeds)
    ensures Furthest(t, d, o, o.seeds) == Frontier(o, o.seeds)
  {
    hide AttemptOk, InputsHeld, InputsOk, KeysAged, KeysOlder, Laws, NextInput, Open, SeedsForeign, WantsMore;
    NoFilesYet(t, d, o);
    FreshKeys(t, d, o);
    SeedsAreAttempt(t, d, o);
  }

  lemma {:induction false} SeedsAreAttempt(t: Task, d: Disk, o: Opened)
    requires SeedsOk(t, d, o)
    ensures AttemptOk(t, o, o.seeds)
  {
    assert o.seeds[..|o.seeds|] == o.seeds;
  }

  lemma {:induction false} FreshKeys(t: Task, d: Disk, o: Opened)
    requires KeysOlder(t, d, o) && InputsHeld(t, d, o.seeds) && forall i: nat :: StageFile(o.key, i) !in d
    ensures KeysAged(t, d, o) && SeedsForeign(o)
  {
    forall n: Name ensures FileAged(t, d, o, n) { assert FileOlder(t, d, o, n); }
    HeldNames(t, d, o.seeds);
  }

  lemma {:induction false} NoFilesYet(t: Task, d: Disk, o: Opened)
    requires Laws(t) && Open(t, d) == Some(o) && KeysOlder(t, d, o)
    ensures Journal(o) !in d && forall i: nat :: StageFile(o.key, i) !in d
  {
    CurrentKeyIsNew(t, d, o, |o.history.steps|);
    assert FileOlder(t, d, o, Journal(o));
    forall i: nat ensures StageFile(o.key, i) !in d { assert FileOlder(t, d, o, StageFile(o.key, i)); }
  }

  /** No file of the current attempt exists. */
  ghost predicate KeysOlder(t: Task, d: Disk, o: Opened) {
    forall n: Name :: FileOlder(t, d, o, n)
  }

  ghost predicate FileOlder(t: Task, d: Disk, o: Opened, n: Name) {
    n in d && (n.StageFile? || n.JournalFile?) ==> Older(t, n.key, |o.history.steps|)
  }

  ghost predicate SeedsOk(t: Task, d: Disk, o: Opened) {
    (o.seeds != [] ==> InputsOk(o.seeds, o.cursor, t.ledger.extent))
    && InputsHeld(t, d, o.seeds) && |o.seeds| <= 1
  }

  /** Every key on disk before a recording is older than the attempt that follows it. */
  lemma {:induction false} KeysAge(t: Task, d: Disk, d': Disk, o: Opened, now: Task, o': Opened)
    requires Open(t, d) == Some(o) && KeysAged(t, d, o)
    requires now == t.(pin := now.pin) && |o'.history.steps| == |o.history.steps| + 1
    requires t.ledger.path in d' && d' == d[t.ledger.path := d'[t.ledger.path]]
    ensures KeysOlder(now, d', o')
  {
    var n := |o.history.steps|;
    forall name: Name ensures FileOlder(now, d', o', name) {
      assert FileAged(t, d, o, name);
      if name in d' && (name.StageFile? || name.JournalFile?) {
        if name.key == o.key {
          var b := BindingOf(t, o.cursor, o.seeds);
          assert KeyFrom(now, name.key, b, d[t.ledger.path]) && Earlier(now, b, d[t.ledger.path], n + 1);
        } else {
          var b: Binding, x: Bytes :| KeyFrom(t, name.key, b, x) && Earlier(t, b, x, n);
          assert KeyFrom(now, name.key, b, x) && Earlier(now, b, x, n + 1);
        }
      }
    }
  }

  /** Nothing of a row was complete in the first of two inputs, so the step ends past it. */
  lemma {:induction false} StepPassesFirst(t: Task, d: Disk, o: Opened, inputs: seq<Input>)
    requires AttemptInv(t, d, o, inputs) && |inputs| == 2 && VerdictOn(t, d, o, inputs).Verified?
    ensures inputs[0].end < VerdictOn(t, d, o, inputs).next.offset
  {
    hide AttemptOk, Extension, FragmentVerdict, InputsHeld, OrphansExact, RowDigest, ScanRows;
    var c, src, cursor := t.ledger.codec, t.captured, o.cursor;
    assert GrownAt(t, d, o, inputs, 1) && inputs[..1] == [inputs[0]];
    var next := VerdictOn(t, d, o, inputs).next;
    HeldMatch(t, d, inputs);
    VerifiedIsExtension(c, d, src, AsReceipts(inputs), cursor, t.limit);
    NoRowInFirst(t, d, o, inputs[0]);
    FirstRowEnds(c, src, cursor, next);
  }

  lemma {:induction false} HeldMatch(t: Task, d: Disk, inputs: seq<Input>)
    requires InputsHeld(t, d, inputs)
    ensures FilesMatch(d, t.captured, inputs) && (|inputs| == 2 ==> FilesMatch(d, t.captured, [inputs[0]]))
  {
    if |inputs| == 2 {
      assert FileMatches(d, t.captured, inputs[0]);
      assert FilesMatch(d, t.captured, [inputs[0]]);
    }
  }

  lemma {:induction false} NoRowInFirst(t: Task, d: Disk, o: Opened, r: Input)
    requires VerdictOn(t, d, o, [r]) == NoCompleteRow && FilesMatch(d, t.captured, [r])
    ensures o.cursor.offset <= r.end <= |t.captured| && FindNewline(t.captured[..r.end], o.cursor.offset) == r.end
  {
    hide FragmentVerdict, RowDigest;
    var receipts := AsReceipts([r]);
    VerdictPolicy(t, d, o, [r]);
    VerdictFromSource(t.ledger.codec, d, t.captured, receipts, o.cursor, t.limit);
  }

  lemma {:induction false} VerdictPolicy(t: Task, d: Disk, o: Opened, inputs: seq<Input>)
    requires VerdictOn(t, d, o, inputs) == NoCompleteRow
    ensures PolicyOk(o.cursor, AsReceipts(inputs), t.limit) && ReceiptsOk(AsReceipts(inputs), o.cursor)
    ensures Joined(t.ledger.codec, d, Inputs(AsReceipts(inputs))).Some?
  {
  }

  /** A chain that goes anywhere passes a newline on its way. */
  lemma {:induction false} FirstRowEnds(c: Codec, src: Bytes, a: Cursor, b: Cursor)
    requires Extension(c, src, a, b) && a.sequence < b.sequence
    ensures FindNewline(src[..b.offset], a.offset) < b.offset
    ensures forall end :: b.offset <= end <= |src| ==> FindNewline(src[..end], a.offset) < b.offset
    ensures forall end :: a.offset <= end <= |src| && FindNewline(src[..end], a.offset) == end ==> end < b.offset
  {
    hide RowDigest;
    var first := NextRow(c, src[..b.offset], 0, a);
    assert first.Linked?;
    forall end | b.offset <= end <= |src| ensures FindNewline(src[..end], a.offset) < b.offset {
      assert src[..b.offset] == src[..end][..b.offset];
      NewlineInPrefix(src[..b.offset], src[..end], b.offset, a.offset);
    }
  }

  /**
    Recording opens a fresh attempt for every window, which starts with the unread suffix: at most
    one input, and nothing of it has to be copied again.
   */
  lemma {:induction false} RecordKeepsWindow(t: Task, d: Disk, d': Disk, o: Opened, inputs: seq<Input>, u: Task, p: Opened)
    requires Laws(t) && Open(t, d) == Some(o) && JournalInputs(t, d, o) == Some(inputs)
    requires RecordsStep(t, o, d, d') && |o.history.steps| < MAX_STEPS && HexPin(t, d')
    requires AttemptInv(t, d, o, inputs) && StepsSound(t.ledger.codec, t.captured, o.history.steps)
    requires u == t.(window := u.window) && WindowOk(u.window) && Open(u, d) == Some(p) && KeysAged(u, d, p)
    requires |p.history.steps| == |o.history.steps|
    ensures t.ledger.path in d'
    ensures var now := At(t, d', u.window);
            && Open(now, d').Some?
            && var o' := Open(now, d').value;
               && AttemptAged(now, d', o', o'.seeds) && KeysOlder(now, d', o')
               && Frontier(o', o'.seeds) == Furthest(t, d, o, inputs)
  {
    hide AttemptOk, Extension, FragmentVerdict, HeldInputs, InputsHeld, KeysAged, KeysOlder, Open, OrphansExact, StepsSound;
    var step := RecordedStep(t, d, d', o, inputs);
    var now := At(t, d', u.window);
    NextOpening(t, now, d, d', o, step);
    LongerIsSound(t, o, step);
    var o' := Open(now, d').value;
    KeysAge(u, d, d', p, now, o');
    if |inputs| == 2 { StepPassesFirst(t, d, o, inputs); }
    RecordedPath(t, d);
    SuffixSeeds(t, d, d', o, inputs, now, o');
    assert !WantsMore(t, d, o, inputs);
    FreshAttempt(now, d', o');
  }

  lemma {:induction false} RecordedPath(t: Task, d: Disk)
    requires Open(t, d).Some?
    ensures t.ledger.path.ProgressFile? && t.ledger.path in d
  {
  }

  /** The suffix kept for the next step is held, in order, and reaches as far as the inputs did. */
  lemma {:induction false} SuffixSeeds(t: Task, d: Disk, d': Disk, o: Opened, inputs: seq<Input>, now: Task, o': Opened)
    requires t.ledger.path.ProgressFile? && t.ledger.path in d' && d' == d[t.ledger.path := d'[t.ledger.path]]
    requires now == t.(pin := now.pin, window := now.window) && InputsOk(inputs, o.cursor, t.ledger.extent)
    requires InputsHeld(t, d, inputs) && (|inputs| == 2 ==> inputs[0].end <= o'.cursor.offset)
    requires o'.seeds == SuffixOf(inputs, o'.cursor) && o.cursor.offset <= o'.cursor.offset <= inputs[|inputs| - 1].end
    ensures SeedsOk(now, d', o') && Frontier(o', o'.seeds) == inputs[|inputs| - 1].end
  {
    hide InputsHeld, InputsOk, SuffixOf;
    InputsAreFew(inputs, o.cursor, t.ledger.extent);
    SuffixInOrder(inputs, o.cursor, o'.cursor, t.ledger.extent);
    SuffixHeld(t, d, inputs, o'.cursor);
    SuffixIsShort(inputs, o'.cursor);
    KeptSeeds(t, d, d', inputs, now, o');
  }

  lemma {:induction false} SuffixIsShort(inputs: seq<Input>, cursor: Cursor)
    requires |inputs| <= 2 && (|inputs| == 2 ==> inputs[0].end <= cursor.offset)
    ensures |SuffixOf(inputs, cursor)| <= 1
  {
  }

  lemma {:induction false} InputsAreFew(inputs: seq<Input>, cursor: Cursor, extent: nat)
    requires InputsOk(inputs, cursor, extent)
    ensures 1 <= |inputs| <= 2
  {
  }

  lemma {:induction false} KeptSeeds(t: Task, d: Disk, d': Disk, inputs: seq<Input>, now: Task, o': Opened)
    requires t.ledger.path.ProgressFile? && t.ledger.path in d' && d' == d[t.ledger.path := d'[t.ledger.path]]
    requires now == t.(pin := now.pin, window := now.window) && 1 <= |inputs| <= 2 && |o'.seeds| <= 1
    requires InputsHeld(t, d, o'.seeds)
    requires if o'.seeds == [] then o'.cursor.offset == inputs[|inputs| - 1].end
             else InputsOk(o'.seeds, o'.cursor, t.ledger.extent)
                  && o'.seeds[|o'.seeds| - 1] == inputs[|inputs| - 1]
    ensures SeedsOk(now, d', o') && Frontier(o', o'.seeds) == inputs[|inputs| - 1].end
  {
    RawFilesStay(t, d, d', o'.seeds);
    assert InputsHeld(now, d', o'.seeds);
  }

  /** Recording writes only the progress file: fragments stay as they are. */
  lemma {:induction false} RawFilesStay(t: Task, d: Disk, d': Disk, inputs: seq<Input>)
    requires t.ledger.path.ProgressFile? && t.ledger.path in d' && d' == d[t.ledger.path := d'[t.ledger.path]]
    requires InputsHeld(t, d, inputs) && forall r :: r in inputs ==> IsRawName(r.name)
    ensures InputsHeld(t, d', inputs)
  {
    HeldNames(t, d, inputs);
    JoinedFrame(t.ledger.codec, d, d', inputs);
    forall i | 0 <= i < |inputs| ensures FileMatches(d', t.captured, inputs[i]) {
      assert FileMatches(d, t.captured, inputs[i]) && inputs[i] in inputs;
    }
  }

  // ----- The other windows' attempts -----

  lemma {:induction false} OpenAnyWindow(t: Task, u: Task, d: Disk, o: Opened)
    requires u == t.(window := u.window) && WindowOk(u.window) && Open(t, d) == Some(o)
    ensures Open(u, d) == Some(o.(key := KeyOf(u, o.cursor, o.seeds)))
  {
    hide ReadHistory, StateCursor;
  }

  /** To an attempt with another window on the same history, this one's files are old ones. */
  lemma {:induction false} OtherKeyIsOlder(t: Task, u: Task, d: Disk, o: Opened, p: Opened)
    requires CollisionFree(t.ledger.codec) && Faithful(t.bindings)
    requires u == t.(window := u.window) && u.window != t.window && Open(t, d) == Some(o) && Open(u, d) == Some(p)
    ensures Older(u, o.key, |p.history.steps|) && o.key != p.key
  {
    var b := BindingOf(t, o.cursor, o.seeds);
    assert KeyFrom(u, o.key, b, d[t.ledger.path]) && Earlier(u, b, d[t.ledger.path], |p.history.steps|);
    CurrentKeyIsNew(u, d, p, |p.history.steps|);
  }

  /** A file that is no history, no link and none of this attempt's: a tick's journal, or a new file of an old key. */
  ghost predicate FileOfOthers(t: Task, d: Disk, o: Opened, name: Name) {
    name.TickFile?
    || (((name.StageFile? && name !in d) || name.JournalFile?)
        && name.key != o.key && Older(t, name.key, |o.history.steps|))
  }

  /** Writing such a file leaves the attempt as it is. */
  lemma {:induction false} AgedFrame(t: Task, d: Disk, d': Disk, o: Opened, inputs: seq<Input>, name: Name)
    requires AttemptAged(t, d, o, inputs) && FileOfOthers(t, d, o, name)
    requires name in d' && d' == d[name := d'[name]]
    ensures AttemptAged(t, d', o, inputs) && Furthest(t, d', o, inputs) == Furthest(t, d, o, inputs)
    ensures t.ledger.path in d && t.ledger.path in d' && d'[t.ledger.path] == d[t.ledger.path]
    ensures forall i: nat :: StageFile(o.key, i) in d' <==> StageFile(o.key, i) in d
  {
    hide AttemptOk, Furthest, InputsHeld, KeysAged, KeysOlder, Older, Open, WantsMore;
    OpenFrame(t, d, name, d'[name]);
    OpenedPath(t, d);
    JournalFrame(t, d, o, name, d'[name]);
    HeldNames(t, d, inputs);
    RawInputs(t, o, inputs);
    HeldFrame(t, d, d', o, inputs);
    GrownFrame(t, d, d', o, inputs);
    OldKeysFrame(t, d, d', o, name);
    FurthestFrame(t, d, d', o, inputs);
  }

  lemma {:induction false} FurthestFrame(t: Task, d: Disk, d': Disk, o: Opened, inputs: seq<Input>)
    requires StageFile(o.key, |inputs|) in d' <==> StageFile(o.key, |inputs|) in d
    ensures Furthest(t, d', o, inputs) == Furthest(t, d, o, inputs)
  {
  }

  lemma {:induction false} OpenedPath(t: Task, d: Disk)
    requires Open(t, d).Some?
    ensures t.ledger.path.ProgressFile? && t.ledger.path in d
  {
  }

  lemma {:induction false} RawInputs(t: Task, o: Opened, inputs: seq<Input>)
    requires AttemptOk(t, o, inputs)
    ensures forall r :: r in inputs ==> IsRawName(r.name)
  {
  }

  lemma {:induction false} OldKeysFrame(t: Task, d: Disk, d': Disk, o: Opened, name: Name)
    requires KeysAged(t, d, o) && FileOfOthers(t, d, o, name) && name in d' && d' == d[name := d'[name]]
    ensures KeysAged(t, d', o) && (KeysOlder(t, d, o) ==> KeysOlder(t, d', o))
  {
    hide Older;
    forall n: Name ensures FileAged(t, d', o, n) { assert FileAged(t, d, o, n); }
    if KeysOlder(t, d, o) {
      forall n: Name ensures FileOlder(t, d', o, n) { assert FileOlder(t, d, o, n); }
    }
  }

  // ----- Each action keeps its own attempt -----

  lemma {:induction false} CreateStaysAged(t: Task, d: Disk, d': Disk, o: Opened, inputs: seq<Input>)
    requires Laws(t) && AttemptAged(t, d, o, inputs) && |o.history.steps| < MAX_STEPS && CreatesJournal(t, o, d, d')
    ensures AttemptAged(t, d', o, inputs) && Furthest(t, d', o, inputs) == Furthest(t, d, o, inputs)
    ensures t.ledger.path in d && t.ledger.path in d' && d'[t.ledger.path] == d[t.ledger.path]
    ensures !StagesWindow(t, o, d, d')
  {
    CreateKeepsAttempt(t, d, d', o);
    OwnFileIsAged(t, d, d', o, Journal(o));
  }

  /** A file of the attempt's own key leaves the files in age order. */
  lemma {:induction false} OwnFileIsAged(t: Task, d: Disk, d': Disk, o: Opened, name: Name)
    requires KeysAged(t, d, o) && (name.StageFile? || name.JournalFile?) && name.key == o.key
    requires name in d' && d' == d[name := d'[name]]
    ensures KeysAged(t, d', o)
  {
    forall n: Name ensures FileAged(t, d', o, n) { assert FileAged(t, d, o, n); }
  }

  lemma {:induction false} StageStaysAged(t: Task, d: Disk, d': Disk, o: Opened, inputs: seq<Input>)
    requires Laws(t) && AttemptAged(t, d, o, inputs) && |o.history.steps| < MAX_STEPS && StagesWindow(t, o, d, d')
    ensures AttemptAged(t, d', o, inputs) && Frontier(o, inputs) < |t.captured|
    ensures Furthest(t, d', o, inputs) == NextInput(t, o, inputs).end
    ensures Furthest(t, d, o, inputs) == NextInput(t, o, inputs).offset && JournalInputs(t, d, o) == Some(inputs)
    ensures t.ledger.path in d && t.ledger.path in d' && d'[t.ledger.path] == d[t.ledger.path]
  {
    StageKeepsAttempt(t, d, d', o, inputs);
    OwnFileIsAged(t, d, d', o, NextInput(t, o, inputs).name);
  }

  lemma {:induction false} AppendStaysAged(t: Task, d: Disk, d': Disk, o: Opened, inputs: seq<Input>)
    requires Laws(t) && AttemptAged(t, d, o, inputs) && |o.history.steps| < MAX_STEPS && AppendsInput(t, o, d, d')
    ensures Frontier(o, inputs) < |t.captured|
    ensures var more := inputs + [NextInput(t, o, inputs)];
            AttemptAged(t, d', o, more) && Furthest(t, d', o, more) == Furthest(t, d, o, inputs)
    ensures t.ledger.path in d && t.ledger.path in d' && d'[t.ledger.path] == d[t.ledger.path]
    ensures !StagesWindow(t, o, d, d')
  {
    AppendKeepsAttempt(t, d, d', o, inputs);
    OwnFileIsAged(t, d, d', o, Journal(o));
  }

  // ----- The record limit does not matter to where a run stands -----

  /** The same arguments but for the record limit, both allowed. */
  ghost predicate SameButLimit(t: Task, u: Task) {
    u == Limited(t, u.limit) && 1 <= t.limit <= 256 && 1 <= u.limit <= 256
  }

  lemma {:induction false} OpenAnyLimit(t: Task, u: Task, d: Disk)
    requires SameButLimit(t, u)
    ensures Open(t, d) == Open(u, d)
  {
    hide ReadHistory, StateCursor;
  }

  lemma {:induction false} ScanIncompleteAnyLimit(c: Codec, data: Bytes, base: nat, cur: Cursor, m: nat, n: nat)
    requires base <= cur.offset <= base + |data| && m >= 1 && n >= 1
    requires ScanRows(c, data, base, cur, m).Chained? && ScanRows(c, data, base, cur, m).next.sequence == cur.sequence
    ensures ScanRows(c, data, base, cur, n) == ScanRows(c, data, base, cur, m) == Chained(cur)
  {
    hide RowDigest;
  }

  /** Whether any row is complete does not depend on how many may be taken. */
  lemma {:induction false} IncompleteAnyLimit(t: Task, u: Task, d: Disk, o: Opened, inputs: seq<Input>)
    requires SameButLimit(t, u) && VerdictOn(t, d, o, inputs) == NoCompleteRow
    ensures VerdictOn(u, d, o, inputs) == NoCompleteRow
  {
    hide Joined, ScanRows;
    var data := Joined(t.ledger.codec, d, Inputs(AsReceipts(inputs))).value;
    var rest := data[o.cursor.offset - AsReceipts(inputs)[0].input.offset..];
    ScanIncompleteAnyLimit(t.ledger.codec, rest, o.cursor.offset, o.cursor, t.limit, u.limit);
  }

  lemma {:induction false} WantsMoreAnyLimit(t: Task, u: Task, d: Disk, o: Opened, inputs: seq<Input>)
    requires SameButLimit(t, u)
    ensures WantsMore(t, d, o, inputs) == WantsMore(u, d, o, inputs)
  {
    hide VerdictOn;
    if VerdictOn(t, d, o, inputs) == NoCompleteRow { IncompleteAnyLimit(t, u, d, o, inputs); }
    if VerdictOn(u, d, o, inputs) == NoCompleteRow { IncompleteAnyLimit(u, t, d, o, inputs); }
  }

  lemma {:induction false} AttemptAnyLimit(t: Task, u: Task, o: Opened, inputs: seq<Input>)
    requires SameButLimit(t, u) && AttemptOk(t, o, inputs)
    ensures AttemptOk(u, o, inputs)
  {
    hide InputsOk;
    forall i | |o.seeds| <= i < |inputs| ensures StagedInputOk(u, o, inputs, i) { assert StagedInputOk(t, o, inputs, i); }
  }

  lemma {:induction false} JournalAnyLimit(t: Task, u: Task, d: Disk, o: Opened)
    requires SameButLimit(t, u)
    ensures JournalInputs(t, d, o) == JournalInputs(u, d, o) && HeldInputs(t, d, o) == HeldInputs(u, d, o)
  {
    hide AttemptOk;
    if Journal(o) in d && t.journals.load(d[Journal(o)]).Some? {
      var inputs := t.journals.load(d[Journal(o)]).value.inputs;
      if AttemptOk(t, o, inputs) { AttemptAnyLimit(t, u, o, inputs); }
      if AttemptOk(u, o, inputs) { AttemptAnyLimit(u, t, o, inputs); }
    }
  }

  lemma {:induction false} OlderAnyLimit(t: Task, u: Task, key: string, n: nat)
    requires SameButLimit(t, u) && Older(t, key, n)
    ensures Older(u, key, n)
  {
    var b: Binding, x: Bytes :| KeyFrom(t, key, b, x) && Earlier(t, b, x, n);
    assert KeyFrom(u, key, b, x) && Earlier(u, b, x, n);
  }

  lemma {:induction false} KeysAnyLimit(t: Task, u: Task, d: Disk, o: Opened)
    requires SameButLimit(t, u)
    ensures KeysAged(t, d, o) ==> KeysAged(u, d, o)
    ensures KeysOlder(t, d, o) ==> KeysOlder(u, d, o)
  {
    hide Older;
    forall n: Name | FileAged(t, d, o, n) ensures FileAged(u, d, o, n) {
      if n in d && (n.StageFile? || n.JournalFile?) && n.key != o.key {
        OlderAnyLimit(t, u, n.key, |o.history.steps|);
      }
    }
    forall n: Name | FileOlder(t, d, o, n) ensures FileOlder(u, d, o, n) {
      if n in d && (n.StageFile? || n.JournalFile?) { OlderAnyLimit(t, u, n.key, |o.history.steps|); }
    }
  }

  lemma {:induction false} AgedAnyLimit(t: Task, u: Task, d: Disk, o: Opened, inputs: seq<Input>)
    requires SameButLimit(t, u) && AttemptAged(t, d, o, inputs)
    ensures AttemptAged(u, d, o, inputs) && Furthest(u, d, o, inputs) == Furthest(t, d, o, inputs)
  {
    hide AttemptOk, Grown, HeldInputs, KeysAged, KeysOlder, Open, WantsMore;
    OpenAnyLimit(t, u, d);
    JournalAnyLimit(t, u, d, o);
    KeysAnyLimit(t, u, d, o);
    AttemptAnyLimit(t, u, o, inputs);
    WantsMoreAnyLimit(t, u, d, o, inputs);
    GrownAnyLimit(t, u, d, o, inputs);
  }

  lemma {:induction false} GrownAnyLimit(t: Task, u: Task, d: Disk, o: Opened, inputs: seq<Input>)
    requires SameButLimit(t, u) && Grown(t, d, o, inputs)
    ensures Grown(u, d, o, inputs)
  {
    hide WantsMore;
    forall k | |o.seeds| <= k < |inputs| ensures GrownAt(u, d, o, inputs, k) {
      assert GrownAt(t, d, o, inputs, k);
      WantsMoreAnyLimit(t, u, d, o, inputs[..k]);
    }
  }

  lemma {:induction false} InvAnyLimit(t: Task, u: Task, d: Disk)
    requires SameButLimit(t, u) && Inv(t, d)
    ensures Inv(u, d)
  {
    hide AttemptAged, AttemptInOrder;
    forall w: nat ensures InvFor(u, d, w) {
      assert InvFor(t, d, w);
      if WindowOk(w) { InOrderAnyLimit(At(t, d, w), At(u, d, w), d); }
    }
  }

  lemma {:induction false} InOrderAnyLimit(t: Task, u: Task, d: Disk)
    requires SameButLimit(t, u) && AttemptInOrder(t, d)
    ensures AttemptInOrder(u, d) && Open(u, d) == Open(t, d) && HeldInputs(u, d, Open(u, d).value) == HeldInputs(t, d, Open(t, d).value)
  {
    hide AttemptAged, Open;
    var o := Open(t, d).value;
    OpenAnyLimit(t, u, d);
    JournalAnyLimit(t, u, d, o);
    AgedAnyLimit(t, u, d, o, HeldInputs(t, d, o).value);
  }

  // ----- One action keeps the invariant -----

  /** The window an action was taken with is one a call may choose. */
  lemma {:induction false} MoveMeansPolicy(t: Task, d: Disk, d': Disk, window: nat)
    requires MovesUnder(t, d, d', window)
    ensures WindowOk(window) && 1 <= t.limit <= 256 && Open(At(t, d, window), d).Some?
  {
    hide CreatesJournal, StagesWindow, AppendsInput, RecordsStep, StateCursor, LinkInputs;
  }

  /** What the attempt of one window has held, for an attempt that is in order. */
  lemma {:induction false} InOrder(t: Task, d: Disk, w: nat) returns (o: Opened, inputs: seq<Input>)
    requires Inv(t, d) && WindowOk(w)
    ensures AttemptAged(At(t, d, w), d, o, inputs)
  {
    hide AttemptAged;
    assert InvFor(t, d, w);
    o := Open(At(t, d, w), d).value;
    inputs := HeldInputs(At(t, d, w), d, o).value;
  }

  lemma {:induction false} AgedIsInOrder(t: Task, d: Disk, o: Opened, inputs: seq<Input>)
    requires AttemptAged(t, d, o, inputs)
    ensures AttemptInOrder(t, d)
  {
  }

  /** The file one of the three unrecorded actions writes. */
  ghost predicate WritesOwn(d: Disk, d': Disk, o: Opened, name: Name) {
    && ((name.StageFile? && name !in d) || name.JournalFile?) && name.key == o.key
    && name in d' && d' == d[name := d'[name]]
  }

  lemma {:induction false} UnrecordedWritesOwn(t: Task, d: Disk, d': Disk, o: Opened) returns (name: Name)
    requires Open(t, d) == Some(o) && Action(t, d, d') && !RecordsStep(t, o, d, d')
    ensures WritesOwn(d, d', o, name)
  {
    hide JournalInputs, Open, RecordsStep, WantsMore;
    name := if StagesWindow(t, o, d, d') then NextInput(t, o, JournalInputs(t, d, o).value).name else Journal(o);
  }

  /** The acting call's own attempt stays in order. */
  lemma {:induction false} OwnStaysAged(t: Task, d: Disk, d': Disk, o: Opened, inputs: seq<Input>) returns (after: seq<Input>)
    requires Laws(t) && AttemptAged(t, d, o, inputs) && Action(t, d, d') && !RecordsStep(t, o, d, d')
    ensures AttemptAged(t, d', o, after)
    ensures t.ledger.path in d && t.ledger.path in d' && d'[t.ledger.path] == d[t.ledger.path]
    ensures !StagesWindow(t, o, d, d') ==> Furthest(t, d', o, after) == Furthest(t, d, o, inputs)
    ensures StagesWindow(t, o, d, d') ==>
              && JournalInputs(t, d, o) == Some(inputs) && Frontier(o, inputs) < |t.captured|
              && Furthest(t, d, o, inputs) == NextInput(t, o, inputs).offset
              && Furthest(t, d', o, after) == NextInput(t, o, inputs).end
  {
    hide AppendsInput, AttemptInv, CreatesJournal, Furthest, KeysAged, KeysOlder, RecordsStep, SeedsForeign, StagesWindow, StepsSound;
    after := inputs;
    ActingOpened(t, d, d', o);
    if CreatesJournal(t, o, d, d') {
      CreateStaysAged(t, d, d', o, inputs);
    } else if StagesWindow(t, o, d, d') {
      StageStaysAged(t, d, d', o, inputs);
    } else {
      AppendStaysAged(t, d, d', o, inputs);
      after := inputs + [NextInput(t, o, inputs)];
    }
  }

  lemma {:induction false} ActingOpened(t: Task, d: Disk, d': Disk, o: Opened)
    requires Open(t, d) == Some(o) && Action(t, d, d')
    ensures |o.history.steps| < MAX_STEPS
    ensures CreatesJournal(t, o, d, d') || StagesWindow(t, o, d, d') || AppendsInput(t, o, d, d') || RecordsStep(t, o, d, d')
  {
    hide AppendsInput, CreatesJournal, Open, RecordsStep, StagesWindow;
  }

  /** Every other window's attempt stays as it is. */
  lemma {:induction false} OthersStayAged(t: Task, d: Disk, d': Disk, o: Opened, u: Task, p: Opened, held: seq<Input>)
    requires Laws(t) && Open(t, d) == Some(o) && Action(t, d, d') && !RecordsStep(t, o, d, d')
    requires u == t.(window := u.window) && u.window != t.window && AttemptAged(u, d, p, held)
    ensures AttemptAged(u, d', p, held) && Furthest(u, d', p, held) == Furthest(u, d, p, held)
    ensures t.ledger.path in d && t.ledger.path in d' && d'[t.ledger.path] == d[t.ledger.path]
    ensures forall i: nat :: StageFile(p.key, i) in d' <==> StageFile(p.key, i) in d
  {
    hide Action, AttemptInv, Furthest, KeysAged, KeysOlder, Older, Open, RecordsStep, SeedsForeign, StepsSound;
    var name := UnrecordedWritesOwn(t, d, d', o);
    OtherKeyIsOlder(t, u, d, o, p);
    AgedFrame(u, d, d', p, held, name);
  }

  /** Recording starts a fresh attempt for the window. */
  lemma {:induction false} RecordStartsFresh(t: Task, d: Disk, d': Disk, o: Opened, inputs: seq<Input>, u: Task, p: Opened, held: seq<Input>)
    requires Laws(t) && AttemptAged(t, d, o, inputs) && Action(t, d, d') && RecordsStep(t, o, d, d') && HexPin(t, d')
    requires u == t.(window := u.window) && WindowOk(u.window) && AttemptAged(u, d, p, held)
    ensures t.ledger.path in d'
    ensures var now := At(t, d', u.window);
            && Open(now, d').Some?
            && var o' := Open(now, d').value;
               && AttemptAged(now, d', o', o'.seeds) && KeysOlder(now, d', o')
               && Frontier(o', o'.seeds) == Furthest(t, d, o, inputs)
  {
    hide Action, AttemptInv, Furthest, KeysAged, KeysOlder, Open, RecordsStep, SeedsForeign, StepsSound;
    ActingOpened(t, d, d', o);
    RecordedJournal(t, d, d', o);
    OpenAnyWindow(t, u, d, o);
    RecordKeepsWindow(t, d, d', o, inputs, u, p);
  }

  lemma {:induction false} RecordedJournal(t: Task, d: Disk, d': Disk, o: Opened)
    requires RecordsStep(t, o, d, d')
    ensures JournalInputs(t, d, o).Some? && HeldInputs(t, d, o) == JournalInputs(t, d, o)
  {
    hide RecordSpec;
  }

  /** One action, taken with one window, leaves the attempt of any window in order. */
  lemma {:induction false} MoveKeepsWindow(t: Task, d: Disk, d': Disk, w: nat, v: nat)
    requires Laws(t) && Inv(t, d) && MovesUnder(t, d, d', w) && HexPin(t, d') && WindowOk(v)
    ensures t.ledger.path in d' && AttemptInOrder(At(t, d', v), d')
  {
    hide Action, AttemptAged, AttemptInOrder, Inv, Laws, Open, RecordsStep, StagesWindow;
    MoveMeansPolicy(t, d, d', w);
    var now, view := At(t, d, w), At(t, d, v);
    LawsAnyWindow(t, now);
    var o, inputs := InOrder(t, d, w);
    var p, held := InOrder(t, d, v);
    AgedIsOpen(now, d, o, inputs);
    if RecordsStep(now, o, d, d') {
      RecordStartsFresh(now, d, d', o, inputs, view, p, held);
      assert At(now, d', v) == At(t, d', v);
      AgedIsInOrder(At(t, d', v), d', Open(At(t, d', v), d').value, Open(At(t, d', v), d').value.seeds);
    } else if v == w {
      var after := OwnStaysAged(now, d, d', o, inputs);
      AgedIsInOrder(At(t, d', v), d', o, after);
    } else {
      OthersStayAged(now, d, d', o, view, p, held);
      AgedIsInOrder(At(t, d', v), d', p, held);
    }
  }

  lemma {:induction false} AgedIsOpen(t: Task, d: Disk, o: Opened, inputs: seq<Input>)
    requires AttemptAged(t, d, o, inputs)
    ensures Open(t, d) == Some(o) && HeldInputs(t, d, o) == Some(inputs)
  {
  }

  lemma {:induction false} LawsAnyWindow(t: Task, u: Task)
    requires Laws(t) && u == t.(pin := u.pin, window := u.window, limit := u.limit)
    ensures Laws(u)
  {
  }

  lemma {:induction false} MoveKeepsInv(t: Task, d: Disk, d': Disk, w: nat)
    requires Laws(t) && Inv(t, d) && Moves(t, d, d', w) && HexPin(t, d')
    ensures Inv(t, d')
  {
    hide AttemptInOrder, MovesUnder;
    var limit: nat :| MovesUnder(Limited(t, limit), d, d', w);
    var u := Limited(t, limit);
    MoveMeansPolicy(u, d, d', w);
    InvMeansPolicy(t, d);
    LawsAnyWindow(t, u);
    InvAnyLimit(t, u, d);
    MoveKeepsWindow(u, d, d', w, 1);
    forall v: nat ensures InvFor(u, d', v) {
      if WindowOk(v) { MoveKeepsWindow(u, d, d', w, v); }
    }
    InvAnyLimit(u, t, d');
  }

  lemma {:induction false} InvMeansPolicy(t: Task, d: Disk)
    requires Inv(t, d)
    ensures 1 <= t.limit <= 256 && t.ledger.path.ProgressFile?
  {
    hide AttemptAged, StateCursor, LinkInputs;
    assert InvFor(t, d, 1);
    OpenMeansPolicy(At(t, d, 1), d);
  }

  /** A tick's journal is no part of any attempt. */
  lemma {:induction false} SaveKeepsInv(t: Task, d: Disk, d': Disk)
    requires Inv(t, d) && SavesTick(d, d')
    ensures Inv(t, d')
  {
    hide AttemptAged, AttemptInOrder, Open;
    var title: string :| TickSaved(d, d', title);
    InvMeansPolicy(t, d);
    forall w: nat ensures InvFor(t, d', w) {
      if WindowOk(w) {
        var o, inputs := InOrder(t, d, w);
        AgedFrame(At(t, d, w), d, d', o, inputs, TickFile(title));
        AgedIsInOrder(At(t, d, w), d', o, inputs);
      }
    }
  }

  lemma {:induction false} StepKeepsInv(t: Task, d: Disk, d': Disk, w: nat)
    requires Laws(t) && Inv(t, d) && Goes(t, d, d', w) && HexPin(t, d')
    ensures Inv(t, d')
  {
    hide Inv, Moves, SavesTick;
    if d' != d {
      if Moves(t, d, d', w) { MoveKeepsInv(t, d, d', w); } else { SaveKeepsInv(t, d, d'); }
    }
  }

  // ----- The theorems about whole runs -----

  /** A run may start before any attempt on its history has left a file, with at most one input kept. */
  ghost predicate Start(t: Task, d: Disk, first: nat) {
    t.ledger.path in d && forall w: nat :: StartFor(t, d, w, first)
  }

  ghost predicate StartFor(t: Task, d: Disk, w: nat, first: nat)
    requires t.ledger.path in d
  {
    WindowOk(w) ==>
      match Open(At(t, d, w), d)
      case None => false
      case Some(o) =>
        KeysOlder(At(t, d, w), d, o) && SeedsOk(At(t, d, w), d, o)
        && StepsSound(t.ledger.codec, t.captured, o.history.steps) && Frontier(o, o.seeds) == first
  }

  lemma {:induction false} StartInv(t: Task, d: Disk, first: nat)
    requires Laws(t) && Start(t, d, first)
    ensures Inv(t, d)
  {
    hide AttemptInv, KeysAged, KeysOlder, Open, SeedsForeign, StepsSound;
    forall w: nat ensures InvFor(t, d, w) {
      assert StartFor(t, d, w, first);
      if WindowOk(w) {
        var now := At(t, d, w);
        FreshAttempt(now, d, Open(now, d).value);
      }
    }
  }

  lemma {:induction false} RecoveryPrefix(t: Task, ds: seq<Disk>, ws: seq<nat>)
    requires RecoveryRun(t, ds, ws) && |ws| > 0
    ensures RecoveryRun(t, ds[..|ws|], ws[..|ws| - 1])
    ensures Goes(t, ds[|ws| - 1], ds[|ws|], ws[|ws| - 1]) && HexPin(t, ds[|ws|])
  {
    hide Goes, HexPin;
    var before, windows := ds[..|ws|], ws[..|ws| - 1];
    assert RecoveryMove(t, ds, ws, |ws| - 1) && HexPinAt(t, ds, |ws|);
    forall i | 0 <= i < |before| ensures HexPinAt(t, before, i) { assert HexPinAt(t, ds, i); }
    forall i | 0 <= i < |windows| ensures RecoveryMove(t, before, windows, i) { assert RecoveryMove(t, ds, ws, i); }
  }

  lemma {:induction false} RunKeepsInv(t: Task, ds: seq<Disk>, ws: seq<nat>)
    requires Laws(t) && RecoveryRun(t, ds, ws) && Inv(t, ds[0])
    ensures Inv(t, ds[|ds| - 1])
    decreases |ws|
  {
    hide Goes, Inv;
    var n := |ws|;
    if n > 0 {
      RecoveryPrefix(t, ds, ws);
      RunKeepsInv(t, ds[..n], ws[..n - 1]);
      StepKeepsInv(t, ds[n - 1], ds[n], ws[n - 1]);
    }
  }

  /**
    Every reachable history certifies the source from the anchor to its cursor, as one pass would,
    whatever windows its calls chose.
   */
  lemma {:induction false} RunCertifiesSource(t: Task, ds: seq<Disk>, ws: seq<nat>, first: nat, w: nat)
    requires Laws(t) && RecoveryRun(t, ds, ws) && Start(t, ds[0], first) && WindowOk(w)
    ensures var d := ds[|ds| - 1];
            t.ledger.path in d && Open(At(t, d, w), d).Some?
            && Extension(t.ledger.codec, t.captured, t.ledger.anchor, Open(At(t, d, w), d).value.cursor)
  {
    hide Extension, Inv, Open, Start;
    StartInv(t, ds[0], first);
    RunKeepsInv(t, ds, ws);
    InvCertifies(t, ds[|ds| - 1], w);
  }

  lemma {:induction false} InvCertifies(t: Task, d: Disk, w: nat)
    requires Inv(t, d) && WindowOk(w)
    ensures t.ledger.path in d && Open(At(t, d, w), d).Some?
    ensures Extension(t.ledger.codec, t.captured, t.ledger.anchor, Open(At(t, d, w), d).value.cursor)
  {
    hide Extension, AttemptInv, Inv;
    var o, inputs := InOrder(t, d, w);
    InvPath(t, d);
    StepsCertify(t.ledger.codec, t.captured, o.history.steps, t.ledger.anchor, t.ledger.extent);
  }

  lemma {:induction false} InvPath(t: Task, d: Disk)
    requires Inv(t, d)
    ensures t.ledger.path in d
  {
  }

  /** A source that is a chain to its end is still one from any cursor a run reaches. */
  lemma {:induction false} TailStaysValid(c: Codec, src: Bytes, a: Cursor, m: Cursor, b: Cursor)
    requires Extension(c, src, a, m) && Extension(c, src, a, b) && b.offset == |src|
    ensures Extension(c, src, m, b)
    decreases m.sequence - a.sequence
  {
    hide RowDigest;
    assert src[..b.offset] == src;
    if m.sequence > a.sequence {
      RowDependsOnPrefix(c, src[..m.offset], src, a, m.offset);
      TailStaysValid(c, src, NextRow(c, src, 0, a).next, m, b);
    }
  }

  /** What is asked of the captured source: valid from the anchor, a row start, rows no longer than the window. */
  ghost predicate AnchorOk(t: Task) {
    && ValidTail(t.ledger.codec, t.captured, t.ledger.anchor)
    && AtRowStart(t.captured, t.ledger.anchor.offset)
    && RowsWithin(t.captured, t.ledger.anchor.offset, t.window)
    && (t.ledger.anchor.offset == 0 ==> t.ledger.anchor.sequence == 0 && t.ledger.anchor.lastHash == GENESIS)
  }

  lemma {:induction false} SourceStaysOk(t: Task, d: Disk, o: Opened)
    requires AnchorOk(t) && Open(t, d) == Some(o)
    requires Extension(t.ledger.codec, t.captured, t.ledger.anchor, o.cursor)
    ensures SourceOk(t, o)
  {
    var c, src, anchor := t.ledger.codec, t.captured, t.ledger.anchor;
    var b: Cursor :| Extension(c, src, anchor, b) && b.offset == |src|;
    TailStaysValid(c, src, anchor, o.cursor, b);
    CursorWithinExtent(t, d);
    if anchor.offset < o.cursor.offset { ExtensionEndsAtRowStart(c, src, anchor, o.cursor); }
  }

  /** With at most one seed a second input is a window of the attempt's own. */
  lemma {:induction false} SecondIsOwn(t: Task, o: Opened, inputs: seq<Input>)
    requires AttemptOk(t, o, inputs) && |o.seeds| <= 1
    ensures SecondIsWindow(t, inputs)
  {
    if |inputs| == 2 { assert StagedInputOk(t, o, inputs, 1); }
  }

  /**
    Progress in every reachable state. After any run, interrupted anywhere and with whatever
    windows, over a source that is valid from the anchor with rows no longer than the present
    call's window, this one call, uninterrupted, below the tip and the step limit, records between
    one row and its limit.
   */
  lemma {:induction false} EveryReachableCallRecords(t: Task, ds: seq<Disk>, ws: seq<nat>, first: nat)
    requires Laws(t) && RecoveryRun(t, ds, ws) && Start(t, ds[0], first) && AnchorOk(t) && WindowOk(t.window)
    requires CallFits(t, ds[|ds| - 1])
    ensures CallRecords(t, ds[|ds| - 1])
  {
    hide AnchorOk, CallFits, CallRecords, Inv, Start;
    StartInv(t, ds[0], first);
    RunKeepsInv(t, ds, ws);
    InvRecords(t, ds[|ds| - 1]);
  }

  /** A call on the present pin is below the tip and the step limit, and its metadata fits. */
  ghost predicate CallFits(t: Task, d: Disk) {
    t.ledger.path in d && Open(At(t, d, t.window), d).Some? ==>
      var o := Open(At(t, d, t.window), d).value;
      Open32(t, o) && MetadataFits(At(t, d, t.window), o) && HistoryFits(At(t, d, t.window), o)
  }

  /** A call on the present pin records between one row and its limit. */
  ghost predicate CallRecords(t: Task, d: Disk) {
    && t.ledger.path in d && Open(At(t, d, t.window), d).Some?
    && var o := Open(At(t, d, t.window), d).value;
       var r := Advance(At(t, d, t.window), d).result;
       r.StepRecorded? && o.cursor.sequence < r.next.sequence <= o.cursor.sequence + t.limit
  }

  lemma {:induction false} InvRecords(t: Task, d: Disk)
    requires Laws(t) && Inv(t, d) && AnchorOk(t) && WindowOk(t.window) && CallFits(t, d)
    ensures CallRecords(t, d)
  {
    hide Advance, AnchorOk, AttemptOk, Extension, HistoryFits, Inv, InputsHeld, KeysAged, KeysOlder, MetadataFits, Open, OrphansExact, SourceOk;
    var o, inputs := InOrder(t, d, t.window);
    InvPath(t, d);
    var now := At(t, d, t.window);
    InvCertifies(t, d, t.window);
    AnchorStaysOk(t, now);
    SourceStaysOk(now, d, o);
    SecondIsOwn(now, o, inputs);
    EveryCallRecords(now, d, o, inputs);
  }

  lemma {:induction false} AnchorStaysOk(t: Task, u: Task)
    requires AnchorOk(t) && u == t.(pin := u.pin)
    ensures AnchorOk(u)
  {
  }

  // ----- Rolling over between runs -----

  /** The child's task: its own ledger, started through the link. */
  function ChildTask(t: Task, child: Ledger): Task {
    t.(ledger := child, linked := true)
  }

  /** The end of what the present history keeps for its next step. */
  function Kept(t: Task, d: Disk): nat
    requires t.ledger.path in d
  {
    match Open(At(t, d, 1), d)
    case None => 0
    case Some(o) => Frontier(o, o.seeds)
  }

  lemma {:induction false} KeptForAll(t: Task, d: Disk, w: nat, o: Opened)
    requires t.ledger.path in d && WindowOk(w) && Open(At(t, d, w), d) == Some(o)
    ensures Kept(t, d) == Frontier(o, o.seeds)
  {
    hide Open;
    OpenAnyWindow(At(t, d, w), At(t, d, 1), d, o);
  }

  /**
    A rollover is transparent to a run: the child may start at once from what the full parent
    left, at the same cursor, with the same retained inputs up to the same byte.
   */
  lemma {:induction false} ChildRunContinues(t: Task, d: Disk, r: Rollover, result: RolloverResult, d': Disk)
    requires Laws(t) && Faithful(t.links) && Inv(t, d) && t.ledger.path in d
    requires r == Rollover(t.ledger, t.links, t.ledger.codec.sha256(d[t.ledger.path]), r.childTitle)
    requires RolloverSpec(r, d) == (result, d') && result.RolledOver?
    requires IsHash(result.child.evidence) && IsHash(result.pin)
    ensures Laws(ChildTask(t, result.child)) && Start(ChildTask(t, result.child), d', Kept(t, d))
    ensures forall w: nat :: WindowOk(w) && Open(At(t, d, w), d).Some? ==>
              result.child.anchor == Open(At(t, d, w), d).value.cursor
    ensures result.child.codec == t.ledger.codec && HistoryFull(t, d)
  {
    hide AttemptAged, Open, RolloverSpec;
    var c := ChildTask(t, result.child);
    forall w: nat | WindowOk(w)
      ensures c.ledger.path in d' && StartFor(c, d', w, Kept(t, d)) && HistoryFull(t, d)
      ensures result.child.codec == t.ledger.codec && Open(At(t, d, w), d).Some?
      ensures result.child.anchor == Open(At(t, d, w), d).value.cursor
    {
      var o, inputs := InOrder(t, d, w);
      AgedIsOpen(At(t, d, w), d, o, inputs);
      ChildOpens(t, d, d', r, result, w, o);
      FullMeansFull(t, d, w, o);
      FullKeepsSeeds(At(t, d, w), d, o, inputs);
      ChildStarts(t, At(t, d, w), d, d', o, r.childTitle, c, w);
      KeptForAll(t, d, w, o);
    }
    var o, inputs := InOrder(t, d, 1);
    AgedIsOpen(At(t, d, 1), d, o, inputs);
    ChildOpens(t, d, d', r, result, 1, o);
  }

  /** The history is full, whatever window it is opened with. */
  ghost predicate HistoryFull(t: Task, d: Disk) {
    t.ledger.path in d && Open(At(t, d, 1), d).Some? && |Open(At(t, d, 1), d).value.history.steps| == MAX_STEPS
  }

  lemma {:induction false} FullMeansFull(t: Task, d: Disk, w: nat, o: Opened)
    requires t.ledger.path in d && WindowOk(w) && Open(At(t, d, w), d) == Some(o) && |o.history.steps| == MAX_STEPS
    ensures HistoryFull(t, d)
  {
    hide Open;
    OpenAnyWindow(At(t, d, w), At(t, d, 1), d, o);
  }

  lemma {:induction false} FullKeepsSeeds(t: Task, d: Disk, o: Opened, inputs: seq<Input>)
    requires AttemptAged(t, d, o, inputs) && |o.history.steps| == MAX_STEPS
    ensures inputs == o.seeds && KeysOlder(t, d, o)
  {
  }

  lemma {:induction false} ChildStarts(t: Task, now: Task, d: Disk, d': Disk, o: Opened, title: string, c: Task, w: nat)
    requires Laws(t) && t.ledger.path in d && now == At(t, d, w) && WindowOk(w) && AttemptAged(now, d, o, o.seeds)
    requires |o.history.steps| == MAX_STEPS && ChildOpened(t, d, d', o, title, c, w)
    ensures StartFor(c, d', w, Frontier(o, o.seeds))
  {
    hide AttemptInv, KeysAged, KeysOlder, Open, StateCursor;
    HistoryAdvances(now, d, o);
    var child := Open(At(c, d', w), d').value;
    ChildFilesAreOld(t, d, d', title, c);
    AncestorKeys(now, d, d', o, At(c, d', w), child);
    ChildSeeds(now, d, d', o, title, At(c, d', w), child);
  }

  lemma {:induction false} ChildFilesAreOld(t: Task, d: Disk, d': Disk, title: string, c: Task)
    requires LinkFile(title) in d' && ProgressFile(title) in d'
    requires d' == d[LinkFile(title) := d'[LinkFile(title)]][ProgressFile(title) := d'[ProgressFile(title)]]
    ensures forall n :: n in d' && (n.StageFile? || n.JournalFile?) ==> n in d
  {
  }

  lemma {:induction false} HistoryAdvances(t: Task, d: Disk, o: Opened)
    requires Open(t, d) == Some(o) && o.history.steps != []
    ensures o.cursor.sequence > t.ledger.anchor.sequence
  {
    FullHistoryAdvances(t.ledger, o.history.steps);
  }

  /** Only the link and the child were added, and the child opens where the parent ended. */
  ghost predicate ChildOpened(t: Task, d: Disk, d': Disk, o: Opened, title: string, c: Task, w: nat) {
    && c == ChildTask(t, c.ledger) && c.ledger.path == ProgressFile(title) && c.ledger.path in d'
    && c.ledger.anchor == o.cursor && c.ledger.extent == t.ledger.extent && c.ledger.codec == t.ledger.codec
    && c.ledger.doc == t.ledger.doc
    && Open(At(c, d', w), d').Some?
    && (var child := Open(At(c, d', w), d').value;
        child.history.steps == [] && child.cursor == o.cursor && child.seeds == o.seeds)
    && LinkFile(title) in d'
    && d' == d[LinkFile(title) := d'[LinkFile(title)]][ProgressFile(title) := d'[ProgressFile(title)]]
  }

  lemma {:induction false} FullHistoryAdvances(l: Ledger, steps: seq<Step>)
    requires EndCursor(steps, l.anchor, l.extent).Some?
    ensures EndCursor(steps, l.anchor, l.extent).value.sequence >= l.anchor.sequence + |steps|
    decreases |steps|
  {
    if steps != [] { FullHistoryAdvances(l, steps[..|steps| - 1]); }
  }

  lemma {:induction false} ChildOpens(t: Task, d: Disk, d': Disk, r: Rollover, result: RolloverResult, w: nat, o: Opened)
    requires Laws(t) && Faithful(t.links) && t.ledger.path in d && WindowOk(w)
    requires r == Rollover(t.ledger, t.links, t.ledger.codec.sha256(d[t.ledger.path]), r.childTitle)
    requires RolloverSpec(r, d) == (result, d') && result.RolledOver? && Open(At(t, d, w), d) == Some(o)
    requires IsHash(result.child.evidence) && IsHash(result.pin)
    ensures ChildOpened(t, d, d', o, r.childTitle, ChildTask(t, result.child), w) && |o.history.steps| == MAX_STEPS
  {
    hide LoadRollover, PlanRollover, RolloverSpec;
    var now := At(t, d, w);
    ChildStartsWhereParentEnds(r, d);
    RolloverWrites(r, d);
    CursorWithinExtent(now, d);
    var c := ChildTask(t, result.child);
    assert At(c, d', w).pin == result.pin;
  }

  lemma {:induction false} RolloverWrites(r: Rollover, d: Disk)
    requires RolloverSpec(r, d).0.RolledOver?
    ensures var (result, d') := RolloverSpec(r, d);
            && result.child == r.parent.(path := ProgressFile(r.childTitle), anchor := result.child.anchor,
                                         evidence := result.child.evidence)
            && LinkFile(r.childTitle) in d' && ProgressFile(r.childTitle) in d'
            && d' == d[LinkFile(r.childTitle) := d'[LinkFile(r.childTitle)]][ProgressFile(r.childTitle) := d'[ProgressFile(r.childTitle)]]
            && d'[ProgressFile(r.childTitle)] == PlanRollover(r, d).value.payload
            && result.pin == r.parent.codec.sha256(d'[ProgressFile(r.childTitle)])
            && |ReadHistory(r.parent, d, Some(r.pin)).value.steps| == MAX_STEPS
            && result.child.anchor.offset < r.parent.extent
  {
  }

  /** Every key found beside a full parent belongs to an ancestor of its child. */
  lemma {:induction false} AncestorKeys(t: Task, d: Disk, d': Disk, o: Opened, c: Task, child: Opened)
    requires Open(t, d) == Some(o) && KeysAged(t, d, o)
    requires c.ledger.codec == t.ledger.codec && c.ledger.doc == t.ledger.doc && c.bindings == t.bindings
    requires c.window == t.window && c.ledger.anchor.sequence > t.ledger.anchor.sequence
    requires forall n :: n in d' && (n.StageFile? || n.JournalFile?) ==> n in d
    ensures KeysOlder(c, d', child)
  {
    forall name: Name ensures FileOlder(c, d', child, name) {
      assert FileAged(t, d, o, name);
      if name in d' && (name.StageFile? || name.JournalFile?) {
        if name.key == o.key {
          var b := BindingOf(t, o.cursor, o.seeds);
          assert KeyFrom(c, name.key, b, d[t.ledger.path]) && Earlier(c, b, d[t.ledger.path], |child.history.steps|);
        } else {
          var b: Binding, x: Bytes :| KeyFrom(t, name.key, b, x) && Earlier(t, b, x, |o.history.steps|);
          assert KeyFrom(c, name.key, b, x) && Earlier(c, b, x, |child.history.steps|);
        }
      }
    }
  }

  lemma {:induction false} ChildSeeds(t: Task, d: Disk, d': Disk, o: Opened, title: string, c: Task, child: Opened)
    requires child.seeds == o.seeds && child.cursor == o.cursor && c.ledger.extent == t.ledger.extent
    requires c.ledger.codec == t.ledger.codec && c.captured == t.captured && c.window == t.window
    requires AttemptInv(t, d, o, o.seeds)
    requires LinkFile(title) in d' && ProgressFile(title) in d'
    requires d' == d[LinkFile(title) := d'[LinkFile(title)]][ProgressFile(title) := d'[ProgressFile(title)]]
    ensures SeedsOk(c, d', child)
  {
    HeldNames(t, d, o.seeds);
    forall s | s in o.seeds ensures IsRawName(s.name) {
      var i :| 0 <= i < |o.seeds| && o.seeds[i] == s;
    }
    HeldFrame(t, d, d', o, o.seeds);
  }
}
