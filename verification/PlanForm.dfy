/** The recovery plan and its progress file by their conditions, and what a series of calls reports. */
module PlanForm {
  import opened Foundations
  import opened ChainRows
  import opened SegmentPlan
  import opened Segments

  // ----- Paths -----

  predicate Separates(ch: char) {
    ch == '/' || ch == '\\'
  }

  /** Characters i..j of the path are one of its parts. */
  predicate IsPart(path: string, i: nat, j: nat) {
    i <= j <= |path| && (i == 0 || Separates(path[i - 1])) && (j == |path| || Separates(path[j]))
  }

  /** A path staging accepts and a plan may refer to: the suffix, at most 1024 characters, no part of one or two dots. */
  ghost predicate PathOk(n: Name) {
    && n.SegmentFile? && 16 <= |n.path| <= 1024 && n.path[|n.path| - 16..] == ".segment.pending"
    && (forall i :: 0 <= i < |n.path| ==> n.path[i] != '\0')
    && (forall i: nat, j: nat :: IsPart(n.path, i, j) ==> n.path[i..j] != "." && n.path[i..j] != "..")
  }

  lemma {:induction false} PartExactly(path: string, part: string, i: nat)
    requires part == "." || part == ".."
    ensures i + |part| <= |path| ==>
              (PartAt(Slashed(path), part, i) <==> IsPart(path, i, i + |part|) && path[i..i + |part|] == part)
  {
    if i + |part| <= |path| {
      var s := Slashed(path);
      forall k | 0 <= k < |path| ensures (s[k] == '/' <==> Separates(path[k])) && (s[k] == '.' <==> path[k] == '.') {}
      if s[i..i + |part|] == part {
        forall k | 0 <= k < |part| ensures path[i..i + |part|][k] == part[k] {
          assert s[i + k] == s[i..i + |part|][k];
        }
      }
      if path[i..i + |part|] == part {
        forall k | 0 <= k < |part| ensures s[i..i + |part|][k] == part[k] {
          assert path[i + k] == path[i..i + |part|][k];
        }
      }
    }
  }

  /** Which paths are accepted, spelled out. */
  lemma {:induction false} PathExactly(n: Name)
    ensures PathOk(n) <==> Stageable(n) && Referable(n)
  {
    hide IsPart, PartAt, Slashed;
    if n.SegmentFile? {
      var path := n.path;
      assert |Slashed(path)| == |path| by { SlashedExactly(path); }
      forall i: nat, part: string | part == "." || part == ".."
        ensures i + |part| <= |path| ==>
                  (PartAt(Slashed(path), part, i) <==> IsPart(path, i, i + |part|) && path[i..i + |part|] == part)
      {
        PartExactly(path, part, i);
      }
      if PathOk(n) {
        forall i | 0 <= i <= |path| - 1 ensures !PartAt(Slashed(path), ".", i) { assert IsPart(path, i, i + 1) ==> path[i..i + 1] != "."; }
        forall i | 0 <= i <= |path| - 2 ensures !PartAt(Slashed(path), "..", i) { assert IsPart(path, i, i + 2) ==> path[i..i + 2] != ".."; }
      }
      if Stageable(n) && Referable(n) {
        forall i: nat, j: nat | IsPart(path, i, j) ensures i <= j <= |path| && path[i..j] != "." && path[i..j] != ".." {
          NoDotPart(path, i, j);
        }
      }
    }
  }

  lemma {:induction false} NoDotPart(path: string, i: nat, j: nat)
    requires Referable(SegmentFile(path)) && IsPart(path, i, j)
    ensures i <= j <= |path| && path[i..j] != "." && path[i..j] != ".."
  {
    hide PartAt;
    PartExactly(path, ".", i);
    PartExactly(path, "..", i);
    SlashedExactly(path);
  }

  lemma {:induction false} SlashedExactly(path: string)
    ensures |Slashed(path)| == |path|
    ensures forall i :: 0 <= i < |path| ==> Slashed(path)[i] == if path[i] == '\\' then '/' else path[i]
  {
  }

  // ----- Composing -----

  /** Where the receipt before number `i` ends. */
  function StartOf(anchor: Cursor, offers: seq<Offer>, i: nat): Cursor
    requires i <= |offers|
  {
    if i == 0 then anchor else offers[i - 1].receipt.next
  }

  /** Receipt number `i` is as staging made it, in order, and starts where the one before it ends. */
  ghost predicate Fits(anchor: Cursor, offers: seq<Offer>, i: nat)
    requires i < |offers|
  {
    var r := offers[i].receipt;
    && offers[i].staged && r.start == StartOf(anchor, offers, i)
    && IsHash(r.start.lastHash) && IsHash(r.next.lastHash) && IsHash(r.sha)
    && r.start.sequence < r.next.sequence
    && 1 <= r.size <= 1048576 && r.next.offset == r.start.offset + r.size
    && PathOk(r.name)
  }

  /** The path with every separator as a slash. */
  function Forward(path: string): (forward: string)
    ensures |forward| == |path|
    ensures forall i :: 0 <= i < |path| ==> forward[i] == if Separates(path[i]) then '/' else path[i]
  {
    if path == "" then "" else Forward(path[..|path| - 1]) + if Separates(path[|path| - 1]) then "/" else [path[|path| - 1]]
  }

  /** Two receipts that refer to one file: paths equal up to separators, and case folded by the given function. */
  predicate SameFile(fold: string -> string, x: Offer, y: Offer) {
    var a, b := x.receipt.name, y.receipt.name;
    a.SegmentFile? && b.SegmentFile? && fold(Forward(a.path)) == fold(Forward(b.path))
  }

  lemma {:induction false} KeysExactly(fold: string -> string, x: Offer, y: Offer)
    requires x.receipt.name.SegmentFile? && y.receipt.name.SegmentFile?
    ensures PathKey(fold, x.receipt.name) == PathKey(fold, y.receipt.name) <==> SameFile(fold, x, y)
  {
    hide Slashed, Forward;
    forall path: string ensures Forward(path) == Slashed(path) { SlashedExactly(path); }
  }

  ghost predicate Composes(fold: string -> string, anchor: Cursor, offers: seq<Offer>) {
    && (forall i :: 0 <= i < |offers| ==> Fits(anchor, offers, i))
    && (forall i, j :: 0 <= i < j < |offers| ==> !SameFile(fold, offers[i], offers[j]))
  }

  lemma {:induction false} FitsInPrefix(anchor: Cursor, offers: seq<Offer>, i: nat)
    requires i < |offers| - 1
    ensures Fits(anchor, offers[..|offers| - 1], i) == Fits(anchor, offers, i)
  {
    hide PathOk, IsHash;
  }

  /** One more receipt composes with those before it when it fits and refers to none of their files. */
  lemma {:induction false} ComposesGrows(fold: string -> string, anchor: Cursor, offers: seq<Offer>)
    requires offers != []
    ensures var n := |offers| - 1;
            var before := offers[..n];
            Composes(fold, anchor, offers) <==>
            Composes(fold, anchor, before) && Fits(anchor, offers, n) && forall o :: o in before ==> !SameFile(fold, o, offers[n])
  {
    hide Fits, SameFile;
    var n := |offers| - 1;
    var before := offers[..n];
    forall i | 0 <= i < n ensures before[i] == offers[i] && before[i] in before && Fits(anchor, before, i) == Fits(anchor, offers, i) {
      FitsInPrefix(anchor, offers, i);
    }
    if Composes(fold, anchor, offers) {
      forall i | 0 <= i < n ensures Fits(anchor, before, i) { assert Fits(anchor, offers, i); }
      forall i, j | 0 <= i < j < n ensures !SameFile(fold, before[i], before[j]) {
        assert !SameFile(fold, offers[i], offers[j]);
      }
    }
    if Composes(fold, anchor, before) {
      forall i, j | 0 <= i < j < n ensures !SameFile(fold, offers[i], offers[j]) {
        assert !SameFile(fold, before[i], before[j]);
      }
    }
  }

  lemma {:induction false} EndExactly(fold: string -> string, anchor: Cursor, offers: seq<Offer>)
    ensures PlanEnd(fold, anchor, offers)
         == if Composes(fold, anchor, offers) then Some(StartOf(anchor, offers, |offers|)) else None
    decreases |offers|
  {
    hide Composes, PathKey, Referable, Stageable, IsHash, PathOk, SameFile;
    if offers == [] {
      NothingComposes(fold, anchor);
    } else {
      var before, last := offers[..|offers| - 1], offers[|offers| - 1];
      EndExactly(fold, anchor, before);
      ComposesGrows(fold, anchor, offers);
      PathExactly(last.receipt.name);
      if Composes(fold, anchor, before) && SegmentReceiptOk(last.receipt) {
        forall o | o in before ensures PathKey(fold, o.receipt.name) == PathKey(fold, last.receipt.name) <==> SameFile(fold, o, last) {
          StagedIsSegment(fold, anchor, before, o);
          StageableIsSegment(last.receipt.name);
          KeysExactly(fold, o, last);
        }
      }
    }
  }

  lemma {:induction false} StagedIsSegment(fold: string -> string, anchor: Cursor, offers: seq<Offer>, o: Offer)
    requires Composes(fold, anchor, offers) && o in offers
    ensures o.receipt.name.SegmentFile?
  {
    var i :| 0 <= i < |offers| && offers[i] == o;
    assert Fits(anchor, offers, i);
  }

  lemma {:induction false} StageableIsSegment(n: Name)
    requires Stageable(n)
    ensures n.SegmentFile?
  {
  }

  lemma {:induction false} NothingComposes(fold: string -> string, anchor: Cursor)
    ensures Composes(fold, anchor, [])
  {
  }

  /**
    Which plan a list of receipts makes: one to 32 of them, each in order and starting where the
    one before it ends, no two of one file. The plan holds them as they are, from the anchor to
    the end of the last, with what lies between those two cursors as its totals.
   */
  lemma {:induction false} PlanExactly(fold: string -> string, anchor: Cursor, offers: seq<Offer>, plan: Plan)
    ensures PlanFor(fold, anchor, offers) == Some(plan) <==>
            && IsHash(anchor.lastHash) && 1 <= |offers| <= 32 && Composes(fold, anchor, offers)
            && plan.anchor == anchor && plan.next == offers[|offers| - 1].receipt.next
            && |plan.entries| == |offers|
            && (forall i :: 0 <= i < |offers| ==> plan.entries[i] == offers[i].receipt)
            && plan.bytes == plan.next.offset - anchor.offset
            && plan.records == plan.next.sequence - anchor.sequence
  {
    hide Composes, Receipts, SumBytes, IsHash;
    EndExactly(fold, anchor, offers);
    if PlanEnd(fold, anchor, offers).Some? { TotalsAreCursorDifferences(fold, anchor, offers); }
    if |plan.entries| == |offers| && forall i :: 0 <= i < |offers| ==> plan.entries[i] == offers[i].receipt {
      assert plan.entries == Receipts(offers);
    }
  }

  // ----- The progress file -----

  /** What recording a verified receipt adds to the file. */
  predicate Describes(x: SegmentOutcome, r: SegmentReceipt) {
    && x.start == r.start && x.next == r.next && x.size == r.size && x.sha == r.sha
    && x.records == r.next.sequence - r.start.sequence
  }

  /** The file holds outcomes of the first receipts of this very plan, `k` of them; without a file there are none. */
  ghost predicate Recorded(q: SegmentTask, files: Disk, plan: Plan, k: nat) {
    if q.path !in files then k == 0
    else
      && |files[q.path]| <= 65536
      && match q.states.load(files[q.path])
         case None => false
         case Some(state) =>
           && state.binding == q.codec.sha256(q.plans.dump(plan))
           && |state.checked| == k <= |plan.entries|
           && forall i :: 0 <= i < k ==> Describes(state.checked[i], plan.entries[i])
  }

  lemma {:induction false} OutcomesAre(receipts: seq<SegmentReceipt>, outcomes: seq<SegmentOutcome>)
    ensures outcomes == Outcomes(receipts) <==>
            |outcomes| == |receipts| && forall i :: 0 <= i < |receipts| ==> Describes(outcomes[i], receipts[i])
  {
    if |outcomes| == |receipts| && forall i :: 0 <= i < |receipts| ==> Describes(outcomes[i], receipts[i]) {
      forall i | 0 <= i < |receipts| ensures outcomes[i] == Outcomes(receipts)[i] {
        assert Describes(outcomes[i], receipts[i]);
      }
    }
  }

  lemma {:induction false} LoadedIsRecorded(q: SegmentTask, files: Disk, plan: Plan, k: nat)
    ensures (LoadChecked(q, files, plan).Some? && |LoadChecked(q, files, plan).value| == k) <==> Recorded(q, files, plan, k)
  {
    hide Outcomes, Describes;
    if q.path in files && q.states.load(files[q.path]).Some? {
      var checked := q.states.load(files[q.path]).value.checked;
      if |checked| <= |plan.entries| { OutcomesAre(plan.entries[..|checked|], checked); }
    }
  }

  /** The end of what is recorded. */
  function EndOf(plan: Plan, k: nat): Cursor
    requires k <= |plan.entries|
  {
    if k == 0 then plan.anchor else plan.entries[k - 1].next
  }

  lemma {:induction false} LoadedEnd(q: SegmentTask, files: Disk, plan: Plan)
    requires LoadChecked(q, files, plan).Some?
    ensures var checked := LoadChecked(q, files, plan).value;
            && |checked| <= |plan.entries|
            && EndOf(plan, |checked|) == if checked == [] then plan.anchor else checked[|checked| - 1].next
  {
    hide LoadChecked;
    LoadedIsPrefix(q, files, plan);
    var checked := LoadChecked(q, files, plan).value;
    if checked != [] {
      var recorded := plan.entries[..|checked|];
      assert recorded[|checked| - 1] == plan.entries[|checked| - 1];
    }
  }

  /** What a call may report of the file it leaves: how many of how many are recorded, and where they end. */
  lemma {:induction false} ReportsExactly(q: SegmentTask, files: Disk, plan: Plan, checked: nat, total: nat, next: Cursor)
    requires PlanFor(q.fold, q.anchor, q.offers) == Some(plan)
    ensures ReportsChecked(q, files, NextChecked(checked, total, next)) <==>
            && Recorded(q, files, plan, checked) && total == |q.offers|
            && checked <= |plan.entries| && next == EndOf(plan, checked)
  {
    hide LoadChecked, PlanFor, Recorded;
    PlanExactly(q.fold, q.anchor, q.offers, plan);
    LoadedIsRecorded(q, files, plan, checked);
    if LoadChecked(q, files, plan).Some? { LoadedEnd(q, files, plan); }
  }

  /** The file with outcomes of the first `k` receipts of the plan. */
  function FileWith(q: SegmentTask, plan: Plan, k: nat): Bytes
    requires k <= |plan.entries|
  {
    q.states.dump(SegmentState(q.codec.sha256(q.plans.dump(plan)), Outcomes(plan.entries[..k])))
  }

  lemma {:induction false} OneMoreOutcome(q: SegmentTask, plan: Plan, checked: seq<SegmentOutcome>)
    requires |checked| < |plan.entries| && checked == Outcomes(plan.entries[..|checked|])
    ensures StatePayload(q, plan, checked + [OutcomeOf(plan.entries[|checked|])]) == FileWith(q, plan, |checked| + 1)
  {
    var k := |checked|;
    assert plan.entries[..k + 1] == plan.entries[..k] + [plan.entries[k]];
    assert plan.entries[..k + 1][..k] == plan.entries[..k];
  }

  /** When a call that nothing stops fails: no plan, a file that is not this plan's, or a next segment that may not be recorded. */
  lemma {:induction false} FailsExactly(q: SegmentTask, d: Disk, plan: Plan, k: nat)
    requires PlanFor(q.fold, q.anchor, q.offers) == Some(plan)
    ensures Recorded(q, d, plan, k) ==>
              (NextRaises(q, d) <==>
               k < |plan.entries| && (!SegmentAccepts(q.codec, d, plan.entries[k]) || |FileWith(q, plan, k + 1)| > 65536))
    ensures (forall i: nat :: !Recorded(q, d, plan, i)) ==> NextRaises(q, d)
  {
    hide PlanFor, SegmentAccepts, LoadChecked, StatePayload, FileWith, Recorded, Outcomes;
    if LoadChecked(q, d, plan).Some? {
      var checked := LoadChecked(q, d, plan).value;
      LoadedIsRecorded(q, d, plan, |checked|);
      LoadedIsPrefix(q, d, plan);
      if |checked| < |plan.entries| { OneMoreOutcome(q, plan, checked); }
    }
    LoadedIsRecorded(q, d, plan, k);
  }

  /** What a call that nothing stops leaves and returns, as its contract says it. */
  ghost predicate QuietCall(q: SegmentTask, d: Disk, d': Disk, r: NextResult) {
    && (d' == d || RecordsSegment(q, d, d'))
    && (r.NextChecked? ==> ReportsChecked(q, d', r))
    && (r.NextChecked? && d' == d ==> r.checked == r.total)
    && (r.NextFailed? <==> NextRaises(q, d))
  }

  /**
    Such a call, with `k` outcomes recorded of the plan, records the next segment when it is
    accepted and the file has room, and reports `k + 1` of them; when all are recorded it
    reports that and changes nothing.
   */
  lemma {:induction false} CallAdvances(q: SegmentTask, d: Disk, d': Disk, r: NextResult, plan: Plan, k: nat)
    requires Faithful(q.states) && PlanFor(q.fold, q.anchor, q.offers) == Some(plan)
    requires Recorded(q, d, plan, k) && QuietCall(q, d, d', r)
    requires k < |plan.entries| ==> SegmentAccepts(q.codec, d, plan.entries[k]) && |FileWith(q, plan, k + 1)| <= 65536
    ensures var n := Min(k + 1, |q.offers|);
            && n <= |plan.entries| && r == NextChecked(n, |q.offers|, EndOf(plan, n))
            && d' == if k < |q.offers| then d[q.path := FileWith(q, plan, n)] else d
  {
    hide PlanFor, SegmentAccepts, LoadChecked, StatePayload, FileWith, Outcomes, ReportsChecked, Recorded, NextRaises;
    PlanExactly(q.fold, q.anchor, q.offers, plan);
    LoadedIsRecorded(q, d, plan, k);
    LoadedIsPrefix(q, d, plan);
    FailsExactly(q, d, plan, k);
    ReportsExactly(q, d', plan, r.checked, r.total, r.next);
    LoadedIsRecorded(q, d', plan, r.checked);
    if d' == d {
      assert r.checked == k;
    } else {
      OneMoreOutcome(q, plan, LoadChecked(q, d, plan).value);
      FileIsRecorded(q, d', plan, k + 1);
      LoadedIsRecorded(q, d', plan, k + 1);
    }
  }

  lemma {:induction false} FileIsRecorded(q: SegmentTask, d: Disk, plan: Plan, k: nat)
    requires Faithful(q.states) && k <= |plan.entries|
    requires q.path in d && d[q.path] == FileWith(q, plan, k) && |d[q.path]| <= 65536
    ensures Recorded(q, d, plan, k)
  {
    hide Outcomes, Describes;
    var checked := Outcomes(plan.entries[..k]);
    assert ReadsBack(q.states, SegmentState(q.codec.sha256(q.plans.dump(plan)), checked));
    OutcomesAre(plan.entries[..k], checked);
  }
}
