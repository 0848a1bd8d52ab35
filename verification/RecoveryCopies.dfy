/**
  What whole recovery runs copy. While the window changes only when no window of the present
  attempts is on disk, every byte is copied once; a run that changes it later copies some byte again.
 */
module RecoveryCopies {
  import opened Foundations
  import opened FragmentedRow
  import opened FragmentProgress
  import opened RecoveryStep
  import opened RetryRefinement
  import opened BoundedRows
  import opened RecoveryRuns

  /** A source range that was copied into a new raw file. */
  datatype Range = Range(offset: nat, end: nat)

  /** What an action copies: a new raw file is a new copy of its range; nothing else copies. */
  function CopiedBy(t: Task, d: Disk, d': Disk, w: nat): seq<Range> {
    if t.ledger.path !in d then []
    else
      match Open(At(t, d, w), d)
      case None => []
      case Some(o) =>
        if StagesWindow(At(t, d, w), o, d, d') then
          var next := NextInput(At(t, d, w), o, JournalInputs(At(t, d, w), d, o).value);
          [Range(next.offset, next.end)]
        else []
  }

  /** Every range a run copies, in order. */
  function Copies(t: Task, ds: seq<Disk>, ws: seq<nat>): seq<Range>
    requires |ds| == |ws| + 1
  {
    if ws == [] then []
    else
      var n := |ws|;
      Copies(t, ds[..n], ws[..n - 1]) + CopiedBy(t, ds[n - 1], ds[n], ws[n - 1])
  }

  /** The ranges follow one another without gap or overlap, from `first` to `last`. */
  predicate Contiguous(ranges: seq<Range>, first: nat, last: nat) {
    if ranges == [] then first == last
    else
      var r := ranges[|ranges| - 1];
      r.offset <= r.end == last && Contiguous(ranges[..|ranges| - 1], first, r.offset)
  }

  function Total(ranges: seq<Range>): int {
    if ranges == [] then 0
    else Total(ranges[..|ranges| - 1]) + ranges[|ranges| - 1].end - ranges[|ranges| - 1].offset
  }

  lemma {:induction false} ContiguousTotal(ranges: seq<Range>, first: nat, last: nat)
    requires Contiguous(ranges, first, last)
    ensures first <= last && Total(ranges) == last - first
    decreases |ranges|
  {
    if ranges != [] { ContiguousTotal(ranges[..|ranges| - 1], first, ranges[|ranges| - 1].offset); }
  }

  lemma {:induction false} ContiguousDisjoint(ranges: seq<Range>, first: nat, last: nat, i: nat, j: nat)
    requires Contiguous(ranges, first, last) && i < j < |ranges|
    ensures first <= ranges[i].offset <= ranges[i].end <= ranges[j].offset <= ranges[j].end <= last
    decreases |ranges|
  {
    var n := |ranges| - 1;
    var before := ranges[..n];
    ContiguousTotal(before, first, ranges[n].offset);
    if j < n {
      ContiguousDisjoint(before, first, ranges[n].offset, i, j);
    } else {
      EndsBefore(before, first, ranges[n].offset, i);
    }
  }

  lemma {:induction false} EndsBefore(ranges: seq<Range>, first: nat, last: nat, i: nat)
    requires Contiguous(ranges, first, last) && i < |ranges|
    ensures first <= ranges[i].offset <= ranges[i].end <= last
    decreases |ranges|
  {
    var n := |ranges| - 1;
    ContiguousTotal(ranges[..n], first, ranges[n].offset);
    if i < n { EndsBefore(ranges[..n], first, ranges[n].offset, i); }
  }

  /** Every byte between the ends is in one of the ranges. */
  lemma {:induction false} ContiguousCovers(ranges: seq<Range>, first: nat, last: nat, b: nat) returns (i: nat)
    requires Contiguous(ranges, first, last) && first <= b < last
    ensures i < |ranges| && ranges[i].offset <= b < ranges[i].end
    decreases |ranges|
  {
    var n := |ranges| - 1;
    if b >= ranges[n].offset { i := n; } else { i := ContiguousCovers(ranges[..n], first, ranges[n].offset, b); }
  }

  /** Ranges that follow one another to two ends have one end only, and so do all but the last. */
  lemma {:induction false} ContiguousPrefix(ranges: seq<Range>, first: nat, last: nat, n: nat) returns (middle: nat)
    requires Contiguous(ranges, first, last) && n <= |ranges|
    ensures Contiguous(ranges[..n], first, middle) && middle <= last
    decreases |ranges|
  {
    ContiguousTotal(ranges, first, last);
    if n == |ranges| {
      assert ranges[..n] == ranges;
      middle := last;
    } else {
      var m := |ranges| - 1;
      middle := ContiguousPrefix(ranges[..m], first, ranges[m].offset, n);
      assert ranges[..m][..n] == ranges[..n];
    }
  }

  lemma {:induction false} ContiguousGrows(ranges: seq<Range>, first: nat, last: nat, reach: nat)
    requires Contiguous(ranges, first, last) && last <= reach
    ensures Contiguous(ranges + if reach == last then [] else [Range(last, reach)], first, reach)
  {
    if reach != last {
      var more := ranges + [Range(last, reach)];
      assert more[..|more| - 1] == ranges;
    } else {
      assert ranges + [] == ranges;
    }
  }

  // ----- Steady runs -----

  /** Of the windows past its seeds the attempt has none on disk. */
  ghost predicate NoneStaged(d: Disk, o: Opened) {
    forall i: nat :: |o.seeds| <= i ==> StageFile(o.key, i) !in d
  }

  /** No window of the attempt on the present pin with this window size is on disk. */
  ghost predicate Unstaged(t: Task, d: Disk, w: nat) {
    t.ledger.path in d
    && match Open(At(t, d, w), d)
       case None => true
       case Some(o) => NoneStaged(d, o)
  }

  /** The present pin's attempts with other window sizes have staged nothing. */
  ghost predicate OthersUnstaged(t: Task, d: Disk, w: nat) {
    forall v: nat :: UnstagedUnless(t, d, w, v)
  }

  ghost predicate UnstagedUnless(t: Task, d: Disk, w: nat, v: nat) {
    v != w && WindowOk(v) ==> Unstaged(t, d, v)
  }

  /** Whenever a run copies a window, no attempt with another window size has staged anything under that pin. */
  ghost predicate Steady(t: Task, ds: seq<Disk>, ws: seq<nat>)
    requires |ds| == |ws| + 1
  {
    forall i :: 0 <= i < |ws| ==> SteadyAt(t, ds, ws, i)
  }

  ghost predicate SteadyAt(t: Task, ds: seq<Disk>, ws: seq<nat>, i: nat)
    requires |ds| == |ws| + 1 && i < |ws|
  {
    SteadyMove(t, ds[i], ds[i + 1], ws[i])
  }

  ghost predicate SteadyMove(t: Task, d: Disk, d': Disk, w: nat) {
    CopiedBy(t, d, d', w) != [] ==> OthersUnstaged(t, d, w)
  }

  /** The furthest source byte the attempt with this window size holds. */
  function FurthestAt(t: Task, d: Disk, w: nat): nat
    requires t.ledger.path in d
  {
    match Open(At(t, d, w), d)
    case None => 0
    case Some(o) =>
      match HeldInputs(At(t, d, w), d, o)
      case None => 0
      case Some(inputs) => Furthest(At(t, d, w), d, o, inputs)
  }

  /** Only attempts with the window size `a` may have staged anything, and `reach` is the furthest byte held. */
  ghost predicate Reached(t: Task, d: Disk, a: nat, first: nat, reach: nat) {
    && Inv(t, d) && t.ledger.path in d && WindowOk(a) && OthersUnstaged(t, d, a)
    && FurthestAt(t, d, a) == reach && first <= Kept(t, d)
  }

  /** What an attempt in order holds. */
  lemma {:induction false} HoldsAt(t: Task, d: Disk, w: nat) returns (o: Opened, inputs: seq<Input>)
    requires Inv(t, d) && t.ledger.path in d && WindowOk(w)
    ensures AttemptAged(At(t, d, w), d, o, inputs) && Open(At(t, d, w), d) == Some(o)
    ensures FurthestAt(t, d, w) == Furthest(At(t, d, w), d, o, inputs) && Kept(t, d) == Frontier(o, o.seeds)
  {
    hide AttemptAged, Open;
    o, inputs := InOrder(t, d, w);
    AgedIsOpen(At(t, d, w), d, o, inputs);
    KeptForAll(t, d, w, o);
  }

  lemma {:induction false} FurthestOf(t: Task, d: Disk, w: nat, o: Opened, inputs: seq<Input>)
    requires t.ledger.path in d && AttemptAged(At(t, d, w), d, o, inputs)
    ensures FurthestAt(t, d, w) == Furthest(At(t, d, w), d, o, inputs) && Open(At(t, d, w), d) == Some(o)
  {
    hide AttemptAged, Open;
    AgedIsOpen(At(t, d, w), d, o, inputs);
  }

  /** An attempt that has staged nothing holds its seeds and nothing more. */
  lemma {:induction false} UnstagedHoldsSeeds(t: Task, d: Disk, o: Opened, inputs: seq<Input>)
    requires AttemptAged(t, d, o, inputs) && NoneStaged(d, o)
    ensures inputs == o.seeds && Furthest(t, d, o, inputs) == Frontier(o, o.seeds)
  {
    hide InputsHeld, KeysAged, KeysOlder, Open, OrphansExact;
    if |inputs| > |o.seeds| { StagedIsThere(t, d, o, inputs); }
    assert inputs[..|inputs|] == inputs;
  }

  lemma {:induction false} StagedIsThere(t: Task, d: Disk, o: Opened, inputs: seq<Input>)
    requires AttemptOk(t, o, inputs) && InputsHeld(t, d, inputs) && |inputs| > |o.seeds|
    ensures StageFile(o.key, |o.seeds|) in d
  {
    HeldNames(t, d, inputs);
    assert StagedInputOk(t, o, inputs, |o.seeds|) && inputs[|o.seeds|] in inputs;
  }

  /** An attempt that has staged something holds more than its seeds, and these hold no complete row. */
  lemma {:induction false} StagedHoldsMore(t: Task, d: Disk, o: Opened, inputs: seq<Input>)
    requires AttemptAged(t, d, o, inputs) && !NoneStaged(d, o)
    ensures Furthest(t, d, o, inputs) > Frontier(o, o.seeds) && WantsMore(t, d, o, o.seeds)
  {
    hide InputsHeld, KeysAged, KeysOlder, Open, VerdictOn;
    OpenMeansPolicy(t, d);
    var i: nat :| |o.seeds| <= i && StageFile(o.key, i) in d;
    if |inputs| > |o.seeds| {
      assert GrownAt(t, d, o, inputs, |o.seeds|) && StagedInputOk(t, o, inputs, |o.seeds|);
    } else {
      assert inputs[..|o.seeds|] == inputs;
    }
  }

  lemma {:induction false} FurthestPastKept(t: Task, d: Disk, o: Opened, inputs: seq<Input>)
    requires AttemptAged(t, d, o, inputs)
    ensures Furthest(t, d, o, inputs) >= Frontier(o, o.seeds)
  {
    hide AttemptAged;
    if NoneStaged(d, o) { UnstagedHoldsSeeds(t, d, o, inputs); } else { StagedHoldsMore(t, d, o, inputs); }
  }

  // ----- What one action does to what is held -----

  /** An action that records nothing leaves every attempt's furthest byte where it was, but for the window it stages. */
  lemma {:induction false} UnrecordedKeeps(t: Task, d: Disk, d': Disk, w: nat, v: nat)
    requires Laws(t) && Inv(t, d) && MovesUnder(t, d, d', w) && WindowOk(w) && WindowOk(v)
    requires !RecordsStep(At(t, d, w), OpenedAt(t, d, w), d, d')
    requires v == w ==> !StagesWindow(At(t, d, w), OpenedAt(t, d, w), d, d')
    ensures t.ledger.path in d' && FurthestAt(t, d', v) == FurthestAt(t, d, v)
    ensures Unstaged(t, d, v) ==> Unstaged(t, d', v)
  {
    hide Action, AttemptAged, AttemptInOrder, FurthestAt, Inv, Laws, Open, RecordsStep, StagesWindow, Furthest;
    var now, view := At(t, d, w), At(t, d, v);
    LawsAnyWindow(t, now);
    var o, inputs := HoldsAt(t, d, w);
    var p, held := HoldsAt(t, d, v);
    if v == w {
      var after := OwnStaysAged(now, d, d', o, inputs);
      FurthestOf(t, d', v, o, after);
      UnstagedStays(now, d, d', o);
    } else {
      OthersStayAged(now, d, d', o, view, p, held);
      FurthestOf(t, d', v, p, held);
    }
  }

  function OpenedAt(t: Task, d: Disk, w: nat): Opened
    requires t.ledger.path in d
  {
    match Open(At(t, d, w), d)
    case None => Opened(History(t.ledger.anchor, t.ledger.evidence, t.ledger.extent, []), t.ledger.anchor, [], "")
    case Some(o) => o
  }

  /** Journals are no windows. */
  lemma {:induction false} UnstagedStays(t: Task, d: Disk, d': Disk, o: Opened)
    requires Open(t, d) == Some(o) && Action(t, d, d') && !RecordsStep(t, o, d, d') && !StagesWindow(t, o, d, d')
    ensures NoneStaged(d, o) ==> NoneStaged(d', o)
  {
    hide Action, JournalInputs, Open, RecordsStep, StagesWindow, WantsMore;
    ActingOpened(t, d, d', o);
  }

  /** What an unrecorded action leaves of the history's own part. */
  lemma {:induction false} KeptStays(t: Task, d: Disk, d': Disk, w: nat)
    requires Laws(t) && Inv(t, d) && MovesUnder(t, d, d', w) && WindowOk(w)
    requires !RecordsStep(At(t, d, w), OpenedAt(t, d, w), d, d')
    ensures t.ledger.path in d' && Kept(t, d') == Kept(t, d)
  {
    hide Action, AttemptAged, AttemptInOrder, FurthestAt, Inv, Kept, Laws, Open, RecordsStep, StagesWindow, Furthest;
    var now := At(t, d, w);
    LawsAnyWindow(t, now);
    var o, inputs := HoldsAt(t, d, w);
    var after := OwnStaysAged(now, d, d', o, inputs);
    FurthestOf(t, d', w, o, after);
    KeptForAll(t, d', w, o);
  }

  /** The window an action stages starts at its attempt's furthest byte. */
  lemma {:induction false} StagingMoves(t: Task, d: Disk, d': Disk, w: nat)
    requires Laws(t) && Inv(t, d) && MovesUnder(t, d, d', w) && WindowOk(w) && CopiedBy(t, d, d', w) != []
    ensures !RecordsStep(At(t, d, w), OpenedAt(t, d, w), d, d')
    ensures t.ledger.path in d' && FurthestAt(t, d, w) < FurthestAt(t, d', w)
    ensures CopiedBy(t, d, d', w) == [Range(FurthestAt(t, d, w), FurthestAt(t, d', w))]
  {
    hide Action, AttemptAged, AttemptInOrder, FurthestAt, Inv, JournalInputs, Laws, Open, RecordsStep, StagesWindow, Furthest;
    var now := At(t, d, w);
    LawsAnyWindow(t, now);
    var o, inputs := HoldsAt(t, d, w);
    StagingIsNotRecording(now, d, d', o);
    var after := OwnStaysAged(now, d, d', o, inputs);
    FurthestOf(t, d', w, o, after);
    OpenMeansPolicy(now, d);
  }

  lemma {:induction false} StagingIsNotRecording(t: Task, d: Disk, d': Disk, o: Opened)
    requires Open(t, d) == Some(o) && StagesWindow(t, o, d, d')
    ensures !RecordsStep(t, o, d, d')
  {
    hide Open, RecordsStep, StagesWindow;
    var name := StagedIsNew(t, d, d', o);
    if RecordsStep(t, o, d, d') { RecordWritesHistory(t, d, d', o); }
  }

  lemma {:induction false} StagedIsNew(t: Task, d: Disk, d': Disk, o: Opened) returns (name: Name)
    requires StagesWindow(t, o, d, d')
    ensures name.StageFile? && name !in d && name in d'
  {
    hide JournalInputs, WantsMore;
    name := NextInput(t, o, JournalInputs(t, d, o).value).name;
  }

  lemma {:induction false} RecordWritesHistory(t: Task, d: Disk, d': Disk, o: Opened)
    requires Open(t, d) == Some(o) && RecordsStep(t, o, d, d')
    ensures t.ledger.path in d && t.ledger.path in d' && d' == d[t.ledger.path := d'[t.ledger.path]]
  {
    hide Appended, FragmentVerdict, JournalInputs, StateCursor, LinkInputs;
  }

  /** Recording leaves every attempt fresh, with what the recording attempt held. */
  lemma {:induction false} RecordingKeeps(t: Task, d: Disk, d': Disk, w: nat, v: nat)
    requires Laws(t) && Inv(t, d) && MovesUnder(t, d, d', w) && WindowOk(w) && WindowOk(v) && HexPin(t, d')
    requires RecordsStep(At(t, d, w), OpenedAt(t, d, w), d, d')
    ensures t.ledger.path in d' && Unstaged(t, d', v)
    ensures FurthestAt(t, d', v) == FurthestAt(t, d, w) == Kept(t, d')
  {
    hide Action, AttemptAged, AttemptInOrder, FurthestAt, Inv, KeysOlder, Kept, Laws, Open, RecordsStep, Furthest;
    var now, view := At(t, d, w), At(t, d, v);
    LawsAnyWindow(t, now);
    LawsAnyWindow(t, view);
    var o, inputs := HoldsAt(t, d, w);
    var p, held := HoldsAt(t, d, v);
    RecordStartsFresh(now, d, d', o, inputs, view, p, held);
    var next := At(t, d', v);
    assert next == At(now, d', v);
    var o' := Open(next, d').value;
    LawsAnyWindow(t, next);
    NoFilesYet(next, d', o');
    FurthestOf(t, d', v, o', o'.seeds);
    UnstagedHoldsSeeds(next, d', o', o'.seeds);
    KeptForAll(t, d', v, o');
  }

  /** An attempt that can record holds at least what any other has staged: if it staged nothing itself, nobody did. */
  lemma {:induction false} RecorderHoldsAll(t: Task, d: Disk, d': Disk, w: nat, a: nat)
    requires Laws(t) && Inv(t, d) && MovesUnder(t, d, d', w) && WindowOk(w) && WindowOk(a) && w != a
    requires RecordsStep(At(t, d, w), OpenedAt(t, d, w), d, d') && Unstaged(t, d, w)
    ensures FurthestAt(t, d, a) == FurthestAt(t, d, w)
  {
    hide Action, AttemptAged, AttemptInOrder, FurthestAt, Inv, Kept, Laws, Open, RecordsStep, Furthest, VerdictOn;
    var now, view := At(t, d, w), At(t, d, a);
    var o, inputs := HoldsAt(t, d, w);
    var p, held := HoldsAt(t, d, a);
    UnstagedHoldsSeeds(now, d, o, inputs);
    AgedIsOpen(now, d, o, inputs);
    RecordedVerified(now, d, d', o);
    OpenAnyWindow(now, view, d, o);
    if NoneStaged(d, p) {
      UnstagedHoldsSeeds(view, d, p, held);
    } else {
      StagedHoldsMore(view, d, p, held);
      SameVerdict(now, view, d, o, p, o.seeds);
      assert false;
    }
  }

  lemma {:induction false} RecordedVerified(t: Task, d: Disk, d': Disk, o: Opened)
    requires Open(t, d) == Some(o) && RecordsStep(t, o, d, d')
    ensures HeldInputs(t, d, o).Some? && HeldInputs(t, d, o).value != []
    ensures VerdictOn(t, d, o, HeldInputs(t, d, o).value).Verified?
  {
    hide FragmentVerdict;
    RecordOnOpened(t, d, o, JournalInputs(t, d, o).value);
  }

  lemma {:induction false} SameVerdict(t: Task, u: Task, d: Disk, o: Opened, p: Opened, inputs: seq<Input>)
    requires u == t.(window := u.window) && p == o.(key := p.key)
    ensures VerdictOn(u, d, p, inputs) == VerdictOn(t, d, o, inputs)
  {
  }

  // ----- One step of a steady run -----

  /** A steady action copies exactly from the old reach to the new one. */
  lemma {:induction false} LimitedMoveIsSteady(t: Task, d: Disk, d': Disk, w: nat, a: nat, first: nat, reach: nat)
      returns (a': nat, reach': nat)
    requires Laws(t) && Reached(t, d, a, first, reach) && MovesUnder(t, d, d', w) && HexPin(t, d')
    requires SteadyMove(t, d, d', w)
    ensures Reached(t, d', a', first, reach') && reach <= reach' && (a' == a || a' == w)
    ensures CopiedBy(t, d, d', w) == if reach' == reach then [] else [Range(reach, reach')]
  {
    hide CopiedBy, FurthestAt, Inv, Kept, Laws, MovesUnder, OpenedAt, RecordsStep, StagesWindow, Unstaged;
    MoveMeansPolicy(t, d, d', w);
    MoveIsMove(t, d, d', w);
    MoveKeepsInv(t, d, d', w);
    KeptPastFirst(t, d, a);
    if CopiedBy(t, d, d', w) != [] {
      StagingMoves(t, d, d', w);
      a', reach' := w, FurthestAt(t, d', w);
      KeptStays(t, d, d', w);
      StagingReach(t, d, w, a);
      forall v: nat ensures UnstagedUnless(t, d', w, v) {
        assert UnstagedUnless(t, d, w, v);
        if v != w && WindowOk(v) { UnrecordedKeeps(t, d, d', w, v); }
      }
    } else if RecordsStep(At(t, d, w), OpenedAt(t, d, w), d, d') {
      a', reach' := a, reach;
      assert UnstagedUnless(t, d, a, w);
      if w != a { RecorderHoldsAll(t, d, d', w, a); }
      RecordingKeeps(t, d, d', w, a);
      forall v: nat ensures UnstagedUnless(t, d', a, v) {
        if WindowOk(v) { RecordingKeeps(t, d, d', w, v); }
      }
    } else {
      a', reach' := a, reach;
      NothingCopied(t, d, d', w);
      KeptStays(t, d, d', w);
      UnrecordedKeeps(t, d, d', w, a);
      forall v: nat ensures UnstagedUnless(t, d', a, v) {
        assert UnstagedUnless(t, d, a, v);
        if v != a && WindowOk(v) { UnrecordedKeeps(t, d, d', w, v); }
      }
    }
  }

  lemma {:induction false} MoveIsMove(t: Task, d: Disk, d': Disk, w: nat)
    requires MovesUnder(t, d, d', w)
    ensures Moves(t, d, d', w)
  {
    assert Limited(t, t.limit) == t;
  }

  lemma {:induction false} NothingCopied(t: Task, d: Disk, d': Disk, w: nat)
    requires MovesUnder(t, d, d', w) && CopiedBy(t, d, d', w) == []
    ensures !StagesWindow(At(t, d, w), OpenedAt(t, d, w), d, d')
  {
    hide Action, StagesWindow;
    MoveMeansPolicy(t, d, d', w);
  }

  lemma {:induction false} KeptPastFirst(t: Task, d: Disk, a: nat)
    requires Inv(t, d) && t.ledger.path in d && WindowOk(a)
    ensures Kept(t, d) <= FurthestAt(t, d, a)
  {
    hide AttemptAged, FurthestAt, Furthest, Inv, Kept;
    var o, inputs := HoldsAt(t, d, a);
    FurthestPastKept(At(t, d, a), d, o, inputs);
  }

  /** If only `a` may have staged something and the others than `w` have not, both hold the same. */
  lemma {:induction false} StagingReach(t: Task, d: Disk, w: nat, a: nat)
    requires Inv(t, d) && t.ledger.path in d && WindowOk(w) && WindowOk(a)
    requires OthersUnstaged(t, d, a) && OthersUnstaged(t, d, w)
    ensures FurthestAt(t, d, w) == FurthestAt(t, d, a)
  {
    hide AttemptAged, FurthestAt, Furthest, Inv, Kept, Open;
    if w != a {
      assert UnstagedUnless(t, d, a, w) && UnstagedUnless(t, d, w, a);
      UnstagedIsKept(t, d, w);
      UnstagedIsKept(t, d, a);
    }
  }

  lemma {:induction false} UnstagedIsKept(t: Task, d: Disk, w: nat)
    requires Inv(t, d) && WindowOk(w) && Unstaged(t, d, w)
    ensures FurthestAt(t, d, w) == Kept(t, d)
  {
    hide AttemptAged, FurthestAt, Furthest, Inv, Kept;
    var o, inputs := HoldsAt(t, d, w);
    UnstagedHoldsSeeds(At(t, d, w), d, o, inputs);
  }

  /** Where a run stands does not depend on the record limit. */
  lemma {:induction false} ReachedAnyLimit(t: Task, u: Task, d: Disk, a: nat, first: nat, reach: nat)
    requires SameButLimit(t, u) && Reached(t, d, a, first, reach)
    ensures Reached(u, d, a, first, reach)
  {
    hide FurthestAt, Inv, Kept, Unstaged;
    InvAnyLimit(t, u, d);
    forall v: nat ensures UnstagedUnless(u, d, a, v) {
      assert UnstagedUnless(t, d, a, v);
      if WindowOk(v) { ViewAnyLimit(t, u, d, v); }
    }
    ViewAnyLimit(t, u, d, a);
    ViewAnyLimit(t, u, d, 1);
  }

  lemma {:induction false} ViewAnyLimit(t: Task, u: Task, d: Disk, w: nat)
    requires SameButLimit(t, u) && Inv(t, d) && t.ledger.path in d && WindowOk(w)
    ensures FurthestAt(u, d, w) == FurthestAt(t, d, w) && (Unstaged(t, d, w) ==> Unstaged(u, d, w))
    ensures Kept(u, d) == Kept(t, d)
  {
    hide AttemptAged, Furthest, Inv, Open;
    var o, inputs := HoldsAt(t, d, w);
    var _, _ := HoldsAt(t, d, 1);
    AgedAnyLimit(At(t, d, w), At(u, d, w), d, o, inputs);
    FurthestOf(u, d, w, o, inputs);
    OpenAnyLimit(At(t, d, 1), At(u, d, 1), d);
  }

  lemma {:induction false} SteadyAnyLimit(t: Task, u: Task, d: Disk, d': Disk, w: nat)
    requires SameButLimit(t, u) && SteadyMove(t, d, d', w) && Inv(t, d)
    ensures SteadyMove(u, d, d', w) && CopiedBy(u, d, d', w) == CopiedBy(t, d, d', w)
  {
    hide CopiedBy, FurthestAt, Inv, Kept, Unstaged;
    CopiedAnyLimit(t, u, d, d', w);
    InvPath(t, d);
    forall v: nat | OthersUnstaged(t, d, w) ensures UnstagedUnless(u, d, w, v) {
      assert UnstagedUnless(t, d, w, v);
      if WindowOk(v) { ViewAnyLimit(t, u, d, v); }
    }
  }

  lemma {:induction false} CopiedAnyLimit(t: Task, u: Task, d: Disk, d': Disk, w: nat)
    requires SameButLimit(t, u)
    ensures CopiedBy(t, d, d', w) == CopiedBy(u, d, d', w)
  {
    hide JournalInputs, Open, WantsMore;
    if t.ledger.path in d {
      var a, b := At(t, d, w), At(u, d, w);
      OpenAnyLimit(a, b, d);
      if Open(a, d).Some? {
        var o := Open(a, d).value;
        JournalAnyLimit(a, b, d, o);
        if JournalInputs(a, d, o).Some? { WantsMoreAnyLimit(a, b, d, o, JournalInputs(a, d, o).value); }
      }
    }
  }

  lemma {:induction false} SaveCopiesNothing(t: Task, d: Disk, d': Disk, w: nat)
    requires d' == d || SavesTick(d, d')
    ensures CopiedBy(t, d, d', w) == []
  {
    hide Open, StagesWindow;
    if CopiedBy(t, d, d', w) != [] {
      var name := StagedIsNew(At(t, d, w), d, d', Open(At(t, d, w), d).value);
    }
  }

  /** A tick's journal leaves what is held as it is. */
  lemma {:induction false} SaveKeepsReached(t: Task, d: Disk, d': Disk, a: nat, first: nat, reach: nat)
    requires Laws(t) && Reached(t, d, a, first, reach) && SavesTick(d, d')
    ensures Reached(t, d', a, first, reach)
  {
    hide FurthestAt, Inv, Kept, SavesTick, Unstaged;
    SaveKeepsInv(t, d, d');
    SaveKeepsView(t, d, d', a);
    forall v: nat ensures UnstagedUnless(t, d', a, v) {
      assert UnstagedUnless(t, d, a, v);
      if WindowOk(v) { SaveKeepsView(t, d, d', v); }
    }
  }

  lemma {:induction false} SaveKeepsView(t: Task, d: Disk, d': Disk, w: nat)
    requires Inv(t, d) && t.ledger.path in d && SavesTick(d, d') && WindowOk(w)
    ensures t.ledger.path in d' && FurthestAt(t, d', w) == FurthestAt(t, d, w)
    ensures (Unstaged(t, d, w) ==> Unstaged(t, d', w)) && Kept(t, d') == Kept(t, d)
  {
    hide AttemptAged, Furthest, Inv, Open;
    var title: string :| TickSaved(d, d', title);
    var o, inputs := HoldsAt(t, d, w);
    InvMeansPolicy(t, d);
    AgedFrame(At(t, d, w), d, d', o, inputs, TickFile(title));
    FurthestOf(t, d', w, o, inputs);
    KeptForAll(t, d, w, o);
    KeptForAll(t, d', w, o);
  }

  lemma {:induction false} StepIsSteady(t: Task, d: Disk, d': Disk, w: nat, a: nat, first: nat, reach: nat)
      returns (a': nat, reach': nat)
    requires Laws(t) && Reached(t, d, a, first, reach) && Goes(t, d, d', w) && HexPin(t, d') && SteadyMove(t, d, d', w)
    ensures Reached(t, d', a', first, reach') && reach <= reach' && (a' == a || a' == w)
    ensures CopiedBy(t, d, d', w) == if reach' == reach then [] else [Range(reach, reach')]
  {
    hide CopiedBy, FurthestAt, Inv, Kept, Laws, MovesUnder, OthersUnstaged, SavesTick, SteadyMove;
    a', reach' := a, reach;
    if d' == d || SavesTick(d, d') {
      SaveCopiesNothing(t, d, d', w);
      if d' != d { SaveKeepsReached(t, d, d', a, first, reach); }
    } else {
      var limit: nat :| MovesUnder(Limited(t, limit), d, d', w);
      var u := Limited(t, limit);
      InvMeansPolicy(t, d);
      MoveMeansPolicy(u, d, d', w);
      LawsAnyWindow(t, u);
      ReachedAnyLimit(t, u, d, a, first, reach);
      SteadyAnyLimit(t, u, d, d', w);
      a', reach' := LimitedMoveIsSteady(u, d, d', w, a, first, reach);
      ReachedAnyLimit(u, t, d', a', first, reach');
    }
  }

  // ----- Whole runs -----

  lemma {:induction false} StartIsReached(t: Task, d: Disk, first: nat, a: nat)
    requires Laws(t) && Start(t, d, first) && WindowOk(a)
    ensures Reached(t, d, a, first, first)
  {
    hide FurthestAt, Inv, Kept, Laws, Start, Unstaged;
    StartInv(t, d, first);
    InvPath(t, d);
    StartView(t, d, first, a);
    forall v: nat ensures UnstagedUnless(t, d, a, v) {
      if WindowOk(v) { StartView(t, d, first, v); }
    }
  }

  lemma {:induction false} StartView(t: Task, d: Disk, first: nat, w: nat)
    requires Laws(t) && Start(t, d, first) && Inv(t, d) && WindowOk(w)
    ensures t.ledger.path in d && Unstaged(t, d, w) && FurthestAt(t, d, w) == first == Kept(t, d)
  {
    hide AttemptAged, Furthest, FurthestAt, Inv, KeysOlder, Kept, Laws, Open;
    assert StartFor(t, d, w, first);
    var now := At(t, d, w);
    var o := Open(now, d).value;
    LawsAnyWindow(t, now);
    NoFilesYet(now, d, o);
    UnstagedIsKept(t, d, w);
    KeptForAll(t, d, w, o);
  }

  lemma {:induction false} SteadyPrefix(t: Task, ds: seq<Disk>, ws: seq<nat>)
    requires |ds| == |ws| + 1 && |ws| > 0 && Steady(t, ds, ws)
    ensures Steady(t, ds[..|ws|], ws[..|ws| - 1]) && SteadyMove(t, ds[|ws| - 1], ds[|ws|], ws[|ws| - 1])
  {
    hide SteadyMove;
    var before, windows := ds[..|ws|], ws[..|ws| - 1];
    assert SteadyAt(t, ds, ws, |ws| - 1);
    forall i | 0 <= i < |windows| ensures SteadyAt(t, before, windows, i) { assert SteadyAt(t, ds, ws, i); }
  }

  lemma {:induction false} SteadyRunReaches(t: Task, ds: seq<Disk>, ws: seq<nat>, first: nat) returns (a: nat, reach: nat)
    requires Laws(t) && RecoveryRun(t, ds, ws) && Start(t, ds[0], first) && Steady(t, ds, ws)
    ensures Reached(t, ds[|ds| - 1], a, first, reach) && Contiguous(Copies(t, ds, ws), first, reach)
    decreases |ws|
  {
    hide CopiedBy, Goes, Laws, Reached, Start, Steady, SteadyMove;
    if ws == [] {
      a, reach := 1, first;
      StartIsReached(t, ds[0], first, 1);
    } else {
      var n := |ws|;
      RecoveryPrefix(t, ds, ws);
      SteadyPrefix(t, ds, ws);
      var b, prior := SteadyRunReaches(t, ds[..n], ws[..n - 1], first);
      a, reach := StepIsSteady(t, ds[n - 1], ds[n], ws[n - 1], b, first, prior);
      ContiguousGrows(Copies(t, ds[..n], ws[..n - 1]), first, prior, reach);
    }
  }

  /** A run with one window size is steady. */
  lemma {:induction false} OneWindowIsSteady(t: Task, ds: seq<Disk>, ws: seq<nat>, first: nat, w: nat) returns (reach: nat)
    requires Laws(t) && RecoveryRun(t, ds, ws) && Start(t, ds[0], first)
    requires WindowOk(w) && forall i :: 0 <= i < |ws| ==> ws[i] == w
    ensures Steady(t, ds, ws) && Reached(t, ds[|ds| - 1], w, first, reach)
    decreases |ws|
  {
    hide CopiedBy, Goes, Laws, OthersUnstaged, Start;
    if ws == [] {
      reach := first;
      StartIsReached(t, ds[0], first, w);
    } else {
      var n := |ws|;
      RecoveryPrefix(t, ds, ws);
      var prior := OneWindowIsSteady(t, ds[..n], ws[..n - 1], first, w);
      var a;
      a, reach := StepIsSteady(t, ds[n - 1], ds[n], w, w, first, prior);
      forall i | 0 <= i < n ensures SteadyAt(t, ds, ws, i) {
        if i < n - 1 { assert SteadyAt(t, ds[..n], ws[..n - 1], i); }
      }
    }
  }

  /** Once a run is not steady, the window it then copies starts at a byte that it has copied already. */
  lemma {:induction false} UnsteadyMoveCopiesAgain(t: Task, d: Disk, d': Disk, w: nat, a: nat, first: nat, reach: nat)
      returns (r: Range)
    requires Laws(t) && Reached(t, d, a, first, reach) && Goes(t, d, d', w) && HexPin(t, d') && !SteadyMove(t, d, d', w)
    ensures CopiedBy(t, d, d', w) == [r] && first <= r.offset < reach && r.offset < r.end
  {
    hide CopiedBy, FurthestAt, Inv, Kept, Laws, MovesUnder, SavesTick, Unstaged;
    if d' == d || SavesTick(d, d') { SaveCopiesNothing(t, d, d', w); }
    var limit: nat :| MovesUnder(Limited(t, limit), d, d', w);
    var u := Limited(t, limit);
    InvMeansPolicy(t, d);
    MoveMeansPolicy(u, d, d', w);
    LawsAnyWindow(t, u);
    InvAnyLimit(t, u, d);
    CopiedAnyLimit(t, u, d, d', w);
    StagingMoves(u, d, d', w);
    r := CopiedBy(t, d, d', w)[0];
    ViewAnyLimit(t, u, d, w);
    var v: nat :| !UnstagedUnless(t, d, w, v);
    assert UnstagedUnless(t, d, a, v) && UnstagedUnless(t, d, a, w);
    UnstagedIsKept(t, d, w);
    StagedPastKept(t, d, v);
  }

  lemma {:induction false} StagedPastKept(t: Task, d: Disk, w: nat)
    requires Inv(t, d) && t.ledger.path in d && WindowOk(w) && !Unstaged(t, d, w)
    ensures Kept(t, d) < FurthestAt(t, d, w)
  {
    hide AttemptAged, FurthestAt, Furthest, Inv, Kept;
    var o, inputs := HoldsAt(t, d, w);
    StagedHoldsMore(At(t, d, w), d, o, inputs);
  }

  /** Two of the ranges share a byte. */
  ghost predicate Overlap(ranges: seq<Range>) {
    exists i: nat, j: nat :: OverlapAt(ranges, i, j)
  }

  predicate OverlapAt(ranges: seq<Range>, i: nat, j: nat) {
    i < j < |ranges| && ranges[i].offset <= ranges[j].offset < ranges[i].end && ranges[j].offset < ranges[j].end
  }

  lemma {:induction false} OverlapGrows(a: seq<Range>, b: seq<Range>)
    requires Overlap(a)
    ensures Overlap(a + b)
  {
    var i: nat, j: nat :| OverlapAt(a, i, j);
    assert OverlapAt(a + b, i, j);
  }

  /** A run that is not steady copies some byte twice. */
  lemma {:induction false} UnsteadyOverlaps(t: Task, ds: seq<Disk>, ws: seq<nat>, first: nat)
    requires Laws(t) && RecoveryRun(t, ds, ws) && Start(t, ds[0], first) && !Steady(t, ds, ws)
    ensures Overlap(Copies(t, ds, ws))
    decreases |ws|
  {
    hide CopiedBy, Goes, Laws, Reached, Start, SteadyMove;
    var n := |ws|;
    var before, windows := ds[..n], ws[..n - 1];
    var copies := Copies(t, before, windows);
    RecoveryPrefix(t, ds, ws);
    if Steady(t, before, windows) {
      SteadyGrows(t, ds, ws);
      var a, reach := SteadyRunReaches(t, before, windows, first);
      var r := UnsteadyMoveCopiesAgain(t, ds[n - 1], ds[n], ws[n - 1], a, first, reach);
      var i := ContiguousCovers(copies, first, reach, r.offset);
      assert OverlapAt(copies + [r], i, |copies|);
    } else {
      UnsteadyOverlaps(t, before, windows, first);
      OverlapGrows(copies, CopiedBy(t, ds[n - 1], ds[n], ws[n - 1]));
    }
  }

  lemma {:induction false} SteadyGrows(t: Task, ds: seq<Disk>, ws: seq<nat>)
    requires |ds| == |ws| + 1 && |ws| > 0 && Steady(t, ds[..|ws|], ws[..|ws| - 1])
    ensures SteadyMove(t, ds[|ws| - 1], ds[|ws|], ws[|ws| - 1]) ==> Steady(t, ds, ws)
  {
    hide SteadyMove;
    var n := |ws|;
    if SteadyMove(t, ds[n - 1], ds[n], ws[n - 1]) {
      forall i | 0 <= i < n ensures SteadyAt(t, ds, ws, i) {
        if i < n - 1 { assert SteadyAt(t, ds[..n], ws[..n - 1], i); }
      }
    }
  }

  lemma {:induction false} ContiguousDoesNotOverlap(ranges: seq<Range>, first: nat, last: nat)
    requires Contiguous(ranges, first, last)
    ensures !Overlap(ranges)
  {
    forall i: nat, j: nat ensures !OverlapAt(ranges, i, j) {
      if i < j < |ranges| { ContiguousDisjoint(ranges, first, last, i, j); }
    }
  }

  /**
    No byte is copied twice, exactly. Over any run, interrupted anywhere, the ranges newly copied
    follow one another from the start without gap or overlap if and only if a window is only ever
    copied while the attempts with other window sizes have staged nothing under the same pin;
    otherwise some byte is copied twice.
   */
  lemma {:induction false} NothingCopiedTwice(t: Task, ds: seq<Disk>, ws: seq<nat>, first: nat)
    requires Laws(t) && RecoveryRun(t, ds, ws) && Start(t, ds[0], first)
    ensures Steady(t, ds, ws) <==> exists reach: nat :: Contiguous(Copies(t, ds, ws), first, reach)
    ensures Steady(t, ds, ws) <==> !Overlap(Copies(t, ds, ws))
  {
    hide Contiguous, Copies, Overlap, Start, Steady;
    if Steady(t, ds, ws) {
      var a, reach := SteadyRunReaches(t, ds, ws, first);
      ContiguousDoesNotOverlap(Copies(t, ds, ws), first, reach);
    } else {
      UnsteadyOverlaps(t, ds, ws, first);
      forall reach: nat ensures !Contiguous(Copies(t, ds, ws), first, reach) {
        if Contiguous(Copies(t, ds, ws), first, reach) { ContiguousDoesNotOverlap(Copies(t, ds, ws), first, reach); }
      }
    }
  }

  /** The total of a steady run's copies is the furthest byte held less the start. */
  lemma {:induction false} SteadyTotal(t: Task, ds: seq<Disk>, ws: seq<nat>, first: nat) returns (a: nat)
    requires Laws(t) && RecoveryRun(t, ds, ws) && Start(t, ds[0], first) && Steady(t, ds, ws)
    ensures t.ledger.path in ds[|ds| - 1] && WindowOk(a)
    ensures Total(Copies(t, ds, ws)) == FurthestAt(t, ds[|ds| - 1], a) - first
    ensures OthersUnstaged(t, ds[|ds| - 1], a)
  {
    hide Contiguous, Copies, FurthestAt, Inv, OthersUnstaged, Start, Steady;
    var reach;
    a, reach := SteadyRunReaches(t, ds, ws, first);
    ContiguousTotal(Copies(t, ds, ws), first, reach);
  }

  // ----- A run that is not steady -----

  /** Nothing complete is held under the pin, and the first window of the attempt may be journaled and staged. */
  ghost predicate MayStageFirst(t: Task, d: Disk, w: nat) {
    && t.ledger.path in d && Open(At(t, d, w), d).Some?
    && var o := Open(At(t, d, w), d).value;
       && o.cursor.offset != t.ledger.extent && |o.history.steps| < MAX_STEPS && Frontier(o, o.seeds) < |t.captured|
       && JournalFits(At(t, d, w), o, o.seeds) && WantsMore(At(t, d, w), d, o, o.seeds)
  }

  /** The journal and the first window of a fresh attempt. */
  function FirstWindowStaged(t: Task, d: Disk, o: Opened): (Disk, Disk)
    requires Frontier(o, o.seeds) < |t.captured|
  {
    var journaled := WithJournal(t, d, o, o.seeds);
    var next := NextInput(t, o, o.seeds);
    (journaled, journaled[next.name := RangeOf(t, next)])
  }

  lemma {:induction false} FirstWindowActions(t: Task, d: Disk, o: Opened)
    requires Faithful(t.journals) && Open(t, d) == Some(o) && AttemptOk(t, o, o.seeds)
    requires o.cursor.offset != t.ledger.extent && |o.history.steps| < MAX_STEPS && Frontier(o, o.seeds) < |t.captured|
    requires JournalFits(t, o, o.seeds) && WantsMore(t, d, o, o.seeds)
    requires Journal(o) !in d && StageFile(o.key, |o.seeds|) !in d
    ensures var (d1, d2) := FirstWindowStaged(t, d, o);
            && Action(t, d, d1) && Action(t, d1, d2) && Open(t, d1) == Some(o) && StagesWindow(t, o, d1, d2)
            && Open(t, d2) == Some(o) && StageFile(o.key, |o.seeds|) in d2
  {
    hide AttemptOk, Open, RecordsStep, VerdictOn;
    var (d1, d2) := FirstWindowStaged(t, d, o);
    var next := NextInput(t, o, o.seeds);
    OpenFrame(t, d, Journal(o), d1[Journal(o)]);
    OpenFrame(t, d1, next.name, RangeOf(t, next));
    JournalReadsBack(t, d, o, o.seeds);
    WantsMoreFrame(t, d, o, o.seeds, Journal(o), d1[Journal(o)]);
    assert CreatesJournal(t, o, d, d1);
  }

  /** Another attempt's journal and window leave this one as fresh as it was. */
  lemma {:induction false} StillFresh(t: Task, u: Task, d: Disk, o: Opened, p: Opened)
    requires u == t.(window := u.window) && Open(t, d) == Some(o) && Open(u, d) == Some(p) && o.key != p.key
    requires Frontier(o, o.seeds) < |t.captured| && p == o.(key := p.key) && WantsMore(t, d, o, o.seeds)
    requires Journal(p) !in d && StageFile(p.key, |p.seeds|) !in d && StageFile(o.key, |o.seeds|) !in d
    ensures var d2 := FirstWindowStaged(t, d, o).1;
            Open(u, d2) == Some(p) && WantsMore(u, d2, p, p.seeds)
            && Journal(p) !in d2 && StageFile(p.key, |p.seeds|) !in d2
  {
    hide Open, VerdictOn;
    var (d1, d2) := FirstWindowStaged(t, d, o);
    var next := NextInput(t, o, o.seeds);
    OpenFrame(u, d, Journal(o), d1[Journal(o)]);
    OpenFrame(u, d1, next.name, RangeOf(t, next));
    WantsMoreFrame(t, d, o, o.seeds, Journal(o), d1[Journal(o)]);
    WantsMoreFrame(t, d1, o, o.seeds, next.name, RangeOf(t, next));
    SameVerdict(t, u, d2, o, p, o.seeds);
  }

  /**
    Changing the window under a pin does copy again. From any start with nothing complete held, two
    calls with different windows, each interrupted once its first window is on disk, are a run that
    is not steady: both windows start at the same byte.
   */
  lemma {:induction false} ChangedWindowCopiesAgain(t: Task, d: Disk, first: nat, v: nat, w: nat)
      returns (ds: seq<Disk>, ws: seq<nat>)
    requires Laws(t) && Start(t, d, first) && WindowOk(v) && WindowOk(w) && v != w
    requires MayStageFirst(t, d, v) && MayStageFirst(t, d, w)
    ensures RecoveryRun(t, ds, ws) && ds[0] == d && ws == [v, v, w, w]
    ensures !Steady(t, ds, ws) && Overlap(Copies(t, ds, ws))
  {
    hide Action, AttemptOk, CopiedBy, FirstWindowStaged, KeysOlder, Laws, Open, SeedsOk, StagesWindow, WantsMore;
    assert StartFor(t, d, v, first) && StartFor(t, d, w, first);
    var a, b := At(t, d, v), At(t, d, w);
    var o, p := Open(a, d).value, Open(b, d).value;
    LawsAnyWindow(t, a);
    LawsAnyWindow(t, b);
    NoFilesYet(a, d, o);
    NoFilesYet(b, d, p);
    SeedsAreAttempt(a, d, o);
    SeedsAreAttempt(b, d, p);
    OpenAnyWindow(a, b, d, o);
    LawsGiveKeys(a, b, d, o, p);
    var (d1, d2) := FirstWindowStaged(a, d, o);
    FaithfulJournals(t);
    FirstWindowActions(a, d, o);
    StillFresh(a, b, d, o, p);
    var (d3, d4) := FirstWindowStaged(b, d2, p);
    FirstWindowActions(b, d2, p);
    ds, ws := [d, d1, d2, d3, d4], [v, v, w, w];
    SamePath(a, d, o);
    SamePath(b, d2, p);
    SecondWindowUnsteady(t, d, d2, d3, d4, v, w, o, p);
    FourMoves(t, ds, ws);
    assert !SteadyAt(t, ds, ws, 3);
    UnsteadyOverlaps(t, ds, ws, first);
  }

  lemma {:induction false} FaithfulJournals(t: Task)
    requires Laws(t)
    ensures Faithful(t.journals)
  {
  }

  lemma {:induction false} LawsGiveKeys(t: Task, u: Task, d: Disk, o: Opened, p: Opened)
    requires Laws(t) && u == t.(window := u.window) && u.window != t.window
    requires Open(t, d) == Some(o) && Open(u, d) == Some(p)
    ensures o.key != p.key
  {
    OtherKeyIsOlder(t, u, d, o, p);
  }

  lemma {:induction false} SamePath(t: Task, d: Disk, o: Opened)
    requires Open(t, d) == Some(o) && Frontier(o, o.seeds) < |t.captured|
    ensures t.ledger.path in d && HasHexDigest(t.ledger.codec, d[t.ledger.path])
    ensures var (d1, d2) := FirstWindowStaged(t, d, o);
            && t.ledger.path in d1 && d1[t.ledger.path] == d[t.ledger.path]
            && t.ledger.path in d2 && d2[t.ledger.path] == d[t.ledger.path]
            && Journal(o) in d1 && d1 == d[Journal(o) := d1[Journal(o)]]
  {
    hide StateCursor, LinkInputs;
    OpenMeansPolicy(t, d);
  }

  lemma {:induction false} FourMoves(t: Task, ds: seq<Disk>, ws: seq<nat>)
    requires |ds| == 5 && |ws| == 4 && (forall i :: 0 <= i < 5 ==> t.ledger.path in ds[i])
    requires forall i :: 0 <= i < 4 ==> Action(At(t, ds[i], ws[i]), ds[i], ds[i + 1])
    requires forall i :: 0 <= i < 5 ==> HasHexDigest(t.ledger.codec, ds[i][t.ledger.path])
    ensures RecoveryRun(t, ds, ws)
  {
    hide Action;
    forall i | 0 <= i < 4 ensures RecoveryMove(t, ds, ws, i) {
      assert Limited(t, t.limit) == t;
      assert MovesUnder(Limited(t, t.limit), ds[i], ds[i + 1], ws[i]);
    }
    forall i | 0 <= i < 5 ensures HexPinAt(t, ds, i) { }
  }

  /** The second attempt's window is copied while the first one's is on disk. */
  lemma {:induction false} SecondWindowUnsteady(t: Task, d: Disk, d2: Disk, d3: Disk, d4: Disk, v: nat, w: nat, o: Opened,
                                                p: Opened)
    requires WindowOk(v) && v != w && t.ledger.path in d && t.ledger.path in d2 && t.ledger.path in d3
    requires d2[t.ledger.path] == d[t.ledger.path] == d3[t.ledger.path]
    requires Open(At(t, d, v), d2) == Some(o) && StageFile(o.key, |o.seeds|) in d2
    requires Journal(p) in d3 && d3 == d2[Journal(p) := d3[Journal(p)]]
    requires Open(At(t, d, w), d3) == Some(p) && StagesWindow(At(t, d, w), p, d3, d4)
    ensures !SteadyMove(t, d3, d4, w)
  {
    hide Open, StagesWindow;
    assert At(t, d3, v) == At(t, d, v) && At(t, d3, w) == At(t, d, w);
    OpenFrame(At(t, d, v), d2, Journal(p), d3[Journal(p)]);
    assert !NoneStaged(d3, o);
    assert !UnstagedUnless(t, d3, w, v);
  }
}
