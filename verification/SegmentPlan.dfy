/** Composing segment receipts into one plan, and recording that its segments verify, one per call. */
module SegmentPlan {
  import opened Foundations
  import opened ChainRows
  import opened Segments

  /** A receipt as handed in; `staged` when it is marked as staging marks one. */
  datatype Offer = Offer(staged: bool, receipt: SegmentReceipt)

  datatype Plan = Plan(anchor: Cursor, next: Cursor, entries: seq<SegmentReceipt>, bytes: int, records: int)

  function Receipts(offers: seq<Offer>): (receipts: seq<SegmentReceipt>)
    ensures |receipts| == |offers| && forall i :: 0 <= i < |offers| ==> receipts[i] == offers[i].receipt
  {
    if offers == [] then [] else Receipts(offers[..|offers| - 1]) + [offers[|offers| - 1].receipt]
  }

  /** What two paths of one file have in common: separators as one, and case folded by the given function. */
  function PathKey(fold: string -> string, n: Name): string {
    match n
    case SegmentFile(path) => fold(Slashed(path))
    case _ => ""
  }

  /** Where a list of receipts ends, if each starts where the one before it ended and no file is referred to twice. */
  function PlanEnd(fold: string -> string, anchor: Cursor, offers: seq<Offer>): Option<Cursor> {
    if offers == [] then Some(anchor)
    else
      var before, last := offers[..|offers| - 1], offers[|offers| - 1];
      match PlanEnd(fold, anchor, before)
      case None => None
      case Some(cursor) =>
        if last.staged && SegmentReceiptOk(last.receipt) && last.receipt.start == cursor
           && (forall o :: o in before ==> PathKey(fold, o.receipt.name) != PathKey(fold, last.receipt.name))
        then Some(last.receipt.next) else None
  }

  function SumBytes(receipts: seq<SegmentReceipt>): int {
    if receipts == [] then 0 else SumBytes(receipts[..|receipts| - 1]) + receipts[|receipts| - 1].size
  }

  function SumRecords(receipts: seq<SegmentReceipt>): int {
    if receipts == [] then 0
    else
      var last := receipts[|receipts| - 1];
      SumRecords(receipts[..|receipts| - 1]) + last.next.sequence - last.start.sequence
  }

  /** The plan these receipts make; None when composing it raises. */
  function PlanFor(fold: string -> string, anchor: Cursor, offers: seq<Offer>): Option<Plan> {
    if !IsHash(anchor.lastHash) || !(1 <= |offers| <= 32) then None
    else
      match PlanEnd(fold, anchor, offers)
      case None => None
      case Some(end) =>
        Some(Plan(anchor, end, Receipts(offers), SumBytes(Receipts(offers)), end.sequence - anchor.sequence))
  }

  method ComposeRecoveryPlan(fold: string -> string, anchor: Cursor, offers: seq<Offer>) returns (plan: Option<Plan>)
    ensures plan == PlanFor(fold, anchor, offers)
  {
    hide PlanEnd, Receipts, SegmentReceiptOk, SumBytes;
    if !IsHash(anchor.lastHash) || !(1 <= |offers| <= 32) { return None; }
    var cursor := anchor;
    var entries: seq<SegmentReceipt> := [];
    var paths: set<string> := {};
    var bytes := 0;
    var i := 0;
    EmptyPlan(fold, anchor, offers);
    while i < |offers|
      invariant 0 <= i <= |offers|
      invariant PlanEnd(fold, anchor, offers[..i]) == Some(cursor) && entries == Receipts(offers[..i])
      invariant bytes == SumBytes(entries)
      invariant forall x :: x in paths <==> exists o :: o in offers[..i] && PathKey(fold, o.receipt.name) == x
    {
      var o := offers[i];
      OfferExtends(fold, anchor, offers, i, cursor);
      if !o.staged || !SegmentReceiptOk(o.receipt) || o.receipt.start != cursor || PathKey(fold, o.receipt.name) in paths {
        RefusedPlanStaysRefused(fold, anchor, offers, i + 1);
        return None;
      }
      paths := paths + {PathKey(fold, o.receipt.name)};
      entries := entries + [o.receipt];
      bytes := bytes + o.receipt.size;
      cursor := o.receipt.next;
      assert forall x :: x in offers[..i + 1] <==> x in offers[..i] || x == o;
      i := i + 1;
    }
    assert offers[..i] == offers;
    return Some(Plan(anchor, cursor, entries, bytes, cursor.sequence - anchor.sequence));
  }

  lemma {:induction false} EmptyPlan(fold: string -> string, anchor: Cursor, offers: seq<Offer>)
    ensures PlanEnd(fold, anchor, offers[..0]) == Some(anchor) && Receipts(offers[..0]) == [] && SumBytes([]) == 0
  {
  }

  /** One more receipt. */
  lemma {:induction false} OfferExtends(fold: string -> string, anchor: Cursor, offers: seq<Offer>, i: nat, cursor: Cursor)
    requires i < |offers| && PlanEnd(fold, anchor, offers[..i]) == Some(cursor)
    ensures var o := offers[i];
            && PlanEnd(fold, anchor, offers[..i + 1])
               == (if o.staged && SegmentReceiptOk(o.receipt) && o.receipt.start == cursor
                      && (forall x :: x in offers[..i] ==> PathKey(fold, x.receipt.name) != PathKey(fold, o.receipt.name))
                   then Some(o.receipt.next) else None)
            && Receipts(offers[..i + 1]) == Receipts(offers[..i]) + [o.receipt]
            && SumBytes(Receipts(offers[..i]) + [o.receipt]) == SumBytes(Receipts(offers[..i])) + o.receipt.size
  {
    hide PathKey, SegmentReceiptOk;
    assert offers[..i + 1][..i] == offers[..i];
    var receipts := Receipts(offers[..i]);
    assert (receipts + [offers[i].receipt])[..i] == receipts;
  }

  lemma {:induction false} RefusedPlanStaysRefused(fold: string -> string, anchor: Cursor, offers: seq<Offer>, n: nat)
    requires n <= |offers| && PlanEnd(fold, anchor, offers[..n]) == None
    ensures PlanEnd(fold, anchor, offers) == None
    decreases |offers| - n
  {
    if n < |offers| {
      assert offers[..n + 1][..n] == offers[..n];
      RefusedPlanStaysRefused(fold, anchor, offers, n + 1);
    } else {
      assert offers[..n] == offers;
    }
  }

  /** Every prefix of a list of receipts that composes, composes; its receipts are in order. */
  lemma {:induction false} PrefixComposes(fold: string -> string, anchor: Cursor, offers: seq<Offer>, n: nat)
    requires PlanEnd(fold, anchor, offers).Some? && n <= |offers|
    ensures PlanEnd(fold, anchor, offers[..n]).Some?
    ensures n > 0 ==>
              var o := offers[n - 1];
              o.staged && SegmentReceiptOk(o.receipt) && Some(o.receipt.start) == PlanEnd(fold, anchor, offers[..n - 1])
              && Some(o.receipt.next) == PlanEnd(fold, anchor, offers[..n])
              && forall x :: x in offers[..n - 1] ==> PathKey(fold, x.receipt.name) != PathKey(fold, o.receipt.name)
    decreases |offers|
  {
    if n < |offers| {
      var m := |offers| - 1;
      PrefixComposes(fold, anchor, offers[..m], n);
      assert offers[..m][..n] == offers[..n];
      if n > 0 { assert offers[..m][..n - 1] == offers[..n - 1] && offers[..m][n - 1] == offers[n - 1]; }
    } else {
      assert offers[..n] == offers;
    }
  }

  /** The totals of a plan are what its end cursors say: bytes and records alike. */
  lemma {:induction false} TotalsAreCursorDifferences(fold: string -> string, anchor: Cursor, offers: seq<Offer>)
    requires PlanEnd(fold, anchor, offers).Some?
    ensures var end := PlanEnd(fold, anchor, offers).value;
            && SumBytes(Receipts(offers)) == end.offset - anchor.offset
            && SumRecords(Receipts(offers)) == end.sequence - anchor.sequence
            && end.sequence >= anchor.sequence + |offers|
    decreases |offers|
  {
    if offers != [] {
      var before := offers[..|offers| - 1];
      TotalsAreCursorDifferences(fold, anchor, before);
      assert Receipts(offers)[..|offers| - 1] == Receipts(before);
    }
  }

  // ----- One segment per durable progress update -----

  /** What verifying a segment reports. */
  datatype SegmentOutcome = SegmentOutcome(start: Cursor, next: Cursor, size: int, sha: string, records: int)

  datatype SegmentState = SegmentState(binding: string, checked: seq<SegmentOutcome>)

  datatype SegmentTask = SegmentTask(
    codec: Codec,
    plans: Doc<Plan>,
    states: Doc<SegmentState>,
    anchor: Cursor,
    offers: seq<Offer>,
    path: Name,
    fold: string -> string)

  function OutcomeOf(r: SegmentReceipt): SegmentOutcome {
    SegmentOutcome(r.start, r.next, r.size, r.sha, r.next.sequence - r.start.sequence)
  }

  function Outcomes(receipts: seq<SegmentReceipt>): (outcomes: seq<SegmentOutcome>)
    ensures |outcomes| == |receipts|
    ensures forall i :: 0 <= i < |receipts| ==> outcomes[i] == OutcomeOf(receipts[i])
  {
    if receipts == [] then [] else Outcomes(receipts[..|receipts| - 1]) + [OutcomeOf(receipts[|receipts| - 1])]
  }

  function BindingFor(q: SegmentTask, plan: Plan): string {
    q.codec.sha256(q.plans.dump(plan))
  }

  /** The outcomes recorded so far: none without a file; None when the file is refused. */
  function LoadChecked(q: SegmentTask, files: Disk, plan: Plan): Option<seq<SegmentOutcome>> {
    if q.path !in files then Some([])
    else if |files[q.path]| > MAX_METADATA then None
    else
      match q.states.load(files[q.path])
      case None => None
      case Some(state) =>
        if state.binding == BindingFor(q, plan) && |state.checked| <= |plan.entries|
           && state.checked == Outcomes(plan.entries[..|state.checked|])
        then Some(state.checked) else None
  }

  function StatePayload(q: SegmentTask, plan: Plan, checked: seq<SegmentOutcome>): Bytes {
    q.states.dump(SegmentState(BindingFor(q, plan), checked))
  }

  /** The one change a call can make: the next segment in the plan verifies, and its outcome is recorded. */
  predicate RecordsSegment(q: SegmentTask, d: Disk, d': Disk) {
    match PlanFor(q.fold, q.anchor, q.offers)
    case None => false
    case Some(plan) =>
      match LoadChecked(q, d, plan)
      case None => false
      case Some(checked) =>
        |checked| < |plan.entries|
        && SegmentAccepts(q.codec, d, plan.entries[|checked|])
        && d' == d[q.path := StatePayload(q, plan, checked + [OutcomeOf(plan.entries[|checked|])])]
        && |d'[q.path]| <= MAX_METADATA
  }

  /** NextChecked: how many segments of the plan are recorded, and where they end. NextFailed: the call raised. */
  datatype NextResult = NextChecked(checked: nat, total: nat, next: Cursor) | NextFailed

  predicate ReportsChecked(q: SegmentTask, files: Disk, r: NextResult) {
    match PlanFor(q.fold, q.anchor, q.offers)
    case None => false
    case Some(plan) =>
      match LoadChecked(q, files, plan)
      case None => false
      case Some(checked) =>
        r == NextChecked(|checked|, |plan.entries|,
                         if checked == [] then plan.anchor else checked[|checked| - 1].next)
  }

  /** What a call refuses: the plan, the recorded outcomes, the next segment, or a file that would be too long. */
  predicate NextRaises(q: SegmentTask, d: Disk) {
    match PlanFor(q.fold, q.anchor, q.offers)
    case None => true
    case Some(plan) =>
      match LoadChecked(q, d, plan)
      case None => true
      case Some(checked) =>
        |checked| < |plan.entries|
        && (!SegmentAccepts(q.codec, d, plan.entries[|checked|])
            || |StatePayload(q, plan, checked + [OutcomeOf(plan.entries[|checked|])])| > MAX_METADATA)
  }

  /**
    One call: at most one segment is read and at most one outcome recorded, in plan order. A call
    that returns reports the file it leaves, and has recorded something unless all was recorded.
   */
  method VerifyNextSegment(store: Store, q: SegmentTask, quiet: bool) returns (r: NextResult)
    requires Faithful(q.states) && q.path.SegmentProgressFile?
    modifies store
    ensures store.locks == old(store.locks)
    ensures store.files == old(store.files) || RecordsSegment(q, old(store.files), store.files)
    ensures r.NextChecked? ==> ReportsChecked(q, store.files, r)
    ensures r.NextChecked? && store.files == old(store.files) ==> r.checked == r.total
    ensures quiet && SegmentLock !in old(store.locks) ==> (r.NextFailed? <==> NextRaises(q, old(store.files)))
    ensures SegmentLock in old(store.locks) ==> r == NextFailed && store.files == old(store.files)
  {
    if !quiet { if * { return NextFailed; } }
    var plan := ComposeRecoveryPlan(q.fold, q.anchor, q.offers);
    if plan.None? || SegmentLock in store.locks { return NextFailed; }
    store.locks := store.locks + {SegmentLock};
    r := NextLocked(store, q, plan.value, quiet);
    store.locks := store.locks - {SegmentLock};
  }

  lemma {:induction false} LoadedIsPrefix(q: SegmentTask, d: Disk, plan: Plan)
    requires LoadChecked(q, d, plan).Some?
    ensures var checked := LoadChecked(q, d, plan).value;
            |checked| <= |plan.entries| && checked == Outcomes(plan.entries[..|checked|])
  {
  }

  /** A published list of outcomes is read back as it was written. */
  lemma {:induction false} MoreIsChecked(q: SegmentTask, plan: Plan, checked: seq<SegmentOutcome>,
                                         more: seq<SegmentOutcome>, files: Disk)
    requires Faithful(q.states) && |checked| < |plan.entries| && checked == Outcomes(plan.entries[..|checked|])
    requires more == checked + [OutcomeOf(plan.entries[|checked|])]
    requires q.path in files && files[q.path] == StatePayload(q, plan, more) && |files[q.path]| <= MAX_METADATA
    ensures LoadChecked(q, files, plan) == Some(more)
  {
    assert ReadsBack(q.states, SegmentState(BindingFor(q, plan), more));
    assert plan.entries[..|more|][..|checked|] == plan.entries[..|checked|];
  }

  method NextLocked(store: Store, q: SegmentTask, plan: Plan, quiet: bool) returns (r: NextResult)
    requires Faithful(q.states) && q.path.SegmentProgressFile? && PlanFor(q.fold, q.anchor, q.offers) == Some(plan)
    modifies store`files
    ensures store.files == old(store.files) || RecordsSegment(q, old(store.files), store.files)
    ensures r.NextChecked? ==> ReportsChecked(q, store.files, r)
    ensures r.NextChecked? && store.files == old(store.files) ==> r.checked == r.total
    ensures quiet ==> (r.NextFailed? <==> NextRaises(q, old(store.files)))
  {
    hide LoadChecked, Outcomes, PlanFor, SegmentAccepts;
    var found := LoadChecked(q, store.files, plan);
    if found.None? { return NextFailed; }
    LoadedIsPrefix(q, store.files, plan);
    var checked := found.value;
    if |checked| < |plan.entries| {
      var item := plan.entries[|checked|];
      var check := VerifyStagedSegment(q.codec, store.files, item, quiet);
      if !check.SegmentAccepted? { return NextFailed; }
      var more := checked + [OutcomeOf(item)];
      var payload := StatePayload(q, plan, more);
      if |payload| > MAX_METADATA { return NextFailed; }
      if !quiet { if * { return NextFailed; } }
      store.files := store.files[q.path := payload];
      if !quiet { if * { return NextFailed; } }
      MoreIsChecked(q, plan, found.value, more, store.files);
      checked := more;
    }
    return NextChecked(|checked|, |plan.entries|, if checked == [] then plan.anchor else checked[|checked| - 1].next);
  }

  // ----- What the recorded prefix certifies -----

  /** Any number of calls, and appends to nothing else: the segment files stay as they were published. */
  ghost predicate ProgressRun(q: SegmentTask, ds: seq<Disk>) {
    |ds| > 0 && q.path !in ds[0] && forall i :: 0 <= i < |ds| - 1 ==> ProgressStep(q, ds, i)
  }

  ghost predicate ProgressStep(q: SegmentTask, ds: seq<Disk>, i: nat)
    requires i < |ds| - 1
  {
    ds[i + 1] == ds[i] || RecordsSegment(q, ds[i], ds[i + 1])
  }

  /** The first `n` segments of a plan are accepted as they are on disk. */
  ghost predicate AcceptedUpTo(q: SegmentTask, d: Disk, plan: Plan, n: nat) {
    n <= |plan.entries| && forall i :: 0 <= i < n ==> SegmentAccepts(q.codec, d, plan.entries[i])
  }

  lemma {:induction false} OtherFileKeepsSegment(c: Codec, d: Disk, d': Disk, r: SegmentReceipt, path: Name)
    requires SegmentAccepts(c, d, r) && path.SegmentProgressFile? && path in d' && d' == d[path := d'[path]]
    ensures SegmentAccepts(c, d', r)
  {
  }

  /** Recording appends exactly the outcome that was verified. */
  lemma {:induction false} RecordingKeepsPrefix(q: SegmentTask, d: Disk, d': Disk, plan: Plan, n: nat)
    requires Faithful(q.states) && q.path.SegmentProgressFile? && PlanFor(q.fold, q.anchor, q.offers) == Some(plan)
    requires LoadChecked(q, d, plan).Some? && |LoadChecked(q, d, plan).value| == n && AcceptedUpTo(q, d, plan, n)
    requires RecordsSegment(q, d, d')
    ensures LoadChecked(q, d', plan).Some? && |LoadChecked(q, d', plan).value| == n + 1
    ensures AcceptedUpTo(q, d', plan, n + 1)
  {
    hide PlanFor, SegmentAccepts;
    var more := LoadChecked(q, d, plan).value + [OutcomeOf(plan.entries[n])];
    assert ReadsBack(q.states, SegmentState(BindingFor(q, plan), more));
    LoadedIsPrefix(q, d, plan);
    assert plan.entries[..n + 1][..n] == plan.entries[..n];
    forall i | 0 <= i < n + 1 ensures SegmentAccepts(q.codec, d', plan.entries[i]) {
      OtherFileKeepsSegment(q.codec, d, d', plan.entries[i], q.path);
    }
  }

  /**
    In every state a run can reach, the recorded outcomes are a prefix of the plan's, each
    recorded one at a time, and every recorded segment is accepted.
   */
  lemma {:induction false} RunRecordsPrefix(q: SegmentTask, ds: seq<Disk>, plan: Plan) returns (n: nat)
    requires Faithful(q.states) && q.path.SegmentProgressFile? && PlanFor(q.fold, q.anchor, q.offers) == Some(plan)
    requires ProgressRun(q, ds)
    ensures n <= |plan.entries| && n < |ds|
    ensures LoadChecked(q, ds[|ds| - 1], plan) == Some(Outcomes(plan.entries[..n]))
    ensures AcceptedUpTo(q, ds[|ds| - 1], plan, n)
    decreases |ds|
  {
    hide PlanFor, SegmentAccepts, RecordsSegment, LoadChecked;
    var m := |ds| - 1;
    if m == 0 {
      n := 0;
      NothingRecorded(q, ds[0], plan);
    } else {
      var before := ds[..m];
      forall i | 0 <= i < |before| - 1 ensures ProgressStep(q, before, i) { assert ProgressStep(q, ds, i); }
      n := RunRecordsPrefix(q, before, plan);
      assert ProgressStep(q, ds, m - 1) && before[m - 1] == ds[m - 1];
      if ds[m] != ds[m - 1] {
        RecordingKeepsPrefix(q, ds[m - 1], ds[m], plan, n);
        n := n + 1;
        LoadedIsPrefix(q, ds[m], plan);
      }
    }
  }

  lemma {:induction false} NothingRecorded(q: SegmentTask, d: Disk, plan: Plan)
    requires q.path !in d
    ensures LoadChecked(q, d, plan) == Some(Outcomes(plan.entries[..0]))
  {
  }

  /** The bytes of the first `n` segments, in order. */
  function PlannedBytes(d: Disk, receipts: seq<SegmentReceipt>, n: nat): Bytes
    requires n <= |receipts|
  {
    if n == 0 || receipts[n - 1].name !in d then []
    else PlannedBytes(d, receipts, n - 1) + d[receipts[n - 1].name]
  }

  /** A newline at the join keeps lines apart. */
  lemma {:induction false} LinesConcatenate(x: Bytes, y: Bytes)
    requires x == [] || x[|x| - 1] == NEWLINE
    ensures Lines(x + y) == Lines(x) + Lines(y)
    decreases |x|
  {
    hide FindNewline, Lines;
    LinesUnfold(x);
    if x == [] {
      assert x + y == y;
    } else {
      var end := FindNewline(x, 0);
      FirstNewlineOfJoin(x, y);
      LinesUnfold(x + y);
      var rest := x[end + 1..];
      assert (x + y)[..end] == x[..end] && (x + y)[end + 1..] == rest + y;
      assert rest != [] ==> rest[|rest| - 1] == x[|x| - 1];
      LinesConcatenate(rest, y);
      assert [x[..end]] + (Lines(rest) + Lines(y)) == ([x[..end]] + Lines(rest)) + Lines(y);
    }
  }

  lemma {:induction false} FirstNewlineOfJoin(x: Bytes, y: Bytes)
    requires x != [] && x[|x| - 1] == NEWLINE
    ensures FindNewline(x + y, 0) == FindNewline(x, 0) < |x|
  {
    assert x == x[..|x|] == (x + y)[..|x|];
    NewlineInPrefix(x, x + y, |x|, 0);
  }

  lemma {:induction false} ChainsConcatenate(c: Codec, a: seq<Bytes>, b: seq<Bytes>, sequence: nat, previous: string)
    requires ChainLines(c, a, sequence, previous).Some?
    ensures ChainLines(c, a + b, sequence, previous)
         == ChainLines(c, b, sequence + |a|, ChainLines(c, a, sequence, previous).value)
    decreases |a|
  {
    hide LineDigest;
    if a == [] {
      assert a + b == b;
    } else {
      assert (a + b)[0] == a[0] && (a + b)[1..] == a[1..] + b;
      var digest := LineDigest(c, a[0], sequence, previous).value;
      ChainsConcatenate(c, a[1..], b, sequence + 1, digest);
    }
  }

  /** One pass over these bytes, as a segment verifier makes it, leads from the anchor to the cursor. */
  predicate OnePass(c: Codec, data: Bytes, anchor: Cursor, end: Cursor) {
    && |data| == end.offset - anchor.offset
    && (data == [] || data[|data| - 1] == NEWLINE)
    && |Lines(data)| == end.sequence - anchor.sequence
    && ChainLines(c, Lines(data), anchor.sequence, anchor.lastHash) == Some(end.lastHash)
  }

  /** An accepted segment that starts where one pass ended extends that pass. */
  lemma {:induction false} SegmentExtendsPass(c: Codec, d: Disk, data: Bytes, anchor: Cursor, r: SegmentReceipt)
    requires OnePass(c, data, anchor, r.start) && SegmentAccepts(c, d, r)
    ensures OnePass(c, data + d[r.name], anchor, r.next)
  {
    var more := d[r.name];
    LinesConcatenate(data, more);
    ChainsConcatenate(c, Lines(data), Lines(more), anchor.sequence, anchor.lastHash);
  }

  lemma {:induction false} AcceptedPrefixIsOnePass(q: SegmentTask, d: Disk, plan: Plan, n: nat)
    requires PlanFor(q.fold, q.anchor, q.offers) == Some(plan) && AcceptedUpTo(q, d, plan, n)
    ensures PlanEnd(q.fold, q.anchor, q.offers[..n]).Some?
    ensures OnePass(q.codec, PlannedBytes(d, plan.entries, n), q.anchor, PlanEnd(q.fold, q.anchor, q.offers[..n]).value)
    decreases n
  {
    hide SegmentAccepts, OnePass;
    PrefixComposes(q.fold, q.anchor, q.offers, n);
    if n == 0 {
      EmptyPass(q.codec, q.anchor);
    } else {
      AcceptedPrefixIsOnePass(q, d, plan, n - 1);
      var r := plan.entries[n - 1];
      SegmentExtendsPass(q.codec, d, PlannedBytes(d, plan.entries, n - 1), q.anchor, r);
      AcceptedIsOnDisk(q.codec, d, r);
    }
  }

  lemma {:induction false} EmptyPass(c: Codec, anchor: Cursor)
    ensures OnePass(c, [], anchor, anchor)
  {
    assert Lines([]) == [];
  }

  lemma {:induction false} AcceptedIsOnDisk(c: Codec, d: Disk, r: SegmentReceipt)
    requires SegmentAccepts(c, d, r)
    ensures r.name in d
  {
  }

  /**
    A finished run certifies the whole plan: when every segment has been recorded, one pass over
    the segments' bytes, joined in plan order, leads from the anchor to the plan's end, and the
    plan's totals are the lengths of that pass.
   */
  lemma {:induction false} FinishedRunCertifiesPlan(q: SegmentTask, ds: seq<Disk>, plan: Plan)
    requires Faithful(q.states) && q.path.SegmentProgressFile? && PlanFor(q.fold, q.anchor, q.offers) == Some(plan)
    requires ProgressRun(q, ds)
    requires ReportsChecked(q, ds[|ds| - 1], NextChecked(|plan.entries|, |plan.entries|, plan.next))
    ensures var data := PlannedBytes(ds[|ds| - 1], plan.entries, |plan.entries|);
            && OnePass(q.codec, data, plan.anchor, plan.next)
            && plan.bytes == |data| && plan.records == |Lines(data)| == SumRecords(plan.entries)
  {
    hide SegmentAccepts, RecordsSegment;
    var n := RunRecordsPrefix(q, ds, plan);
    assert n == |plan.entries|;
    AcceptedPrefixIsOnePass(q, ds[|ds| - 1], plan, n);
    assert q.offers[..n] == q.offers;
    TotalsAreCursorDifferences(q.fold, q.anchor, q.offers);
  }
}
