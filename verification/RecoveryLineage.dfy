/**
  A whole lineage of recovery runs: each run fills its history, is rolled over to a child, and the
  child's run goes on. Together they certify the source from the first anchor to the last cursor,
  and if each of them is steady nothing is copied twice along all of them.
 */
module RecoveryLineage {
  import opened Foundations
  import opened ChainRows
  import opened FragmentRollover
  import opened FragmentProgress
  import opened RecoveryStep
  import opened RetryRefinement
  import opened RecoveryRuns
  import opened RecoveryCopies

  /** One member of a lineage: its task, the disks its run passed through and the windows it used. */
  datatype Leg = Leg(task: Task, disks: seq<Disk>, windows: seq<nat>)

  function Final(leg: Leg): Disk
    requires leg.disks != []
  {
    leg.disks[|leg.disks| - 1]
  }

  /** The second run starts on the disk that rolling the first one's last history over leaves, with the child's task. */
  ghost predicate RollsInto(a: Leg, b: Leg, title: string) {
    && a.disks != [] && b.disks != [] && a.task.ledger.path in Final(a)
    && var r := Rollover(a.task.ledger, a.task.links, a.task.ledger.codec.sha256(Final(a)[a.task.ledger.path]), title);
       var (result, d') := RolloverSpec(r, Final(a));
       && result.RolledOver? && IsHash(result.child.evidence) && IsHash(result.pin)
       && b.task == ChildTask(a.task, result.child) && b.disks[0] == d'
  }

  ghost predicate RollsOver(a: Leg, b: Leg) {
    exists title: string :: RollsInto(a, b, title)
  }

  ghost predicate JoinAt(legs: seq<Leg>, i: nat)
    requires i < |legs| - 1
  {
    RollsOver(legs[i], legs[i + 1])
  }

  ghost predicate RunOf(legs: seq<Leg>, i: nat)
    requires i < |legs|
  {
    RecoveryRun(legs[i].task, legs[i].disks, legs[i].windows)
  }

  ghost predicate SteadyLeg(legs: seq<Leg>, i: nat)
    requires i < |legs|
  {
    |legs[i].disks| == |legs[i].windows| + 1 && Steady(legs[i].task, legs[i].disks, legs[i].windows)
  }

  ghost predicate AllSteady(legs: seq<Leg>) {
    forall i :: 0 <= i < |legs| ==> SteadyLeg(legs, i)
  }

  /** Runs joined by rollovers; the first starts with the source read up to `first`. */
  ghost predicate Lineage(legs: seq<Leg>, first: nat) {
    && |legs| > 0 && legs[0].disks != []
    && Laws(legs[0].task) && Faithful(legs[0].task.links) && Start(legs[0].task, legs[0].disks[0], first)
    && (forall i :: 0 <= i < |legs| ==> RunOf(legs, i))
    && (forall i :: 0 <= i < |legs| - 1 ==> JoinAt(legs, i))
  }

  function CopiesOf(leg: Leg): seq<Range> {
    if |leg.disks| == |leg.windows| + 1 then Copies(leg.task, leg.disks, leg.windows) else []
  }

  /** Every range the runs of a lineage copy, in order. */
  function AllCopies(legs: seq<Leg>): seq<Range> {
    if legs == [] then [] else AllCopies(legs[..|legs| - 1]) + CopiesOf(legs[|legs| - 1])
  }

  lemma {:induction false} ContiguousJoins(a: seq<Range>, b: seq<Range>, first: nat, middle: nat, last: nat)
    requires Contiguous(a, first, middle) && Contiguous(b, middle, last)
    ensures Contiguous(a + b, first, last)
    decreases |b|
  {
    if b == [] {
      assert a + b == a;
    } else {
      var n := |b| - 1;
      assert (a + b)[..|a + b| - 1] == a + b[..n];
      ContiguousJoins(a, b[..n], first, middle, b[n].offset);
    }
  }

  lemma {:induction false} LineagePrefix(legs: seq<Leg>, first: nat)
    requires Lineage(legs, first) && |legs| > 1
    ensures Lineage(legs[..|legs| - 1], first)
    ensures RunOf(legs, |legs| - 1) && JoinAt(legs, |legs| - 2)
  {
    hide Laws, RecoveryRun, RollsInto, Start;
    var before := legs[..|legs| - 1];
    forall i | 0 <= i < |before| ensures RunOf(before, i) { assert RunOf(legs, i); }
    forall i | 0 <= i < |before| - 1 ensures JoinAt(before, i) { assert JoinAt(legs, i); }
  }

  /** Where a leg has come to: its runs so far certify the source. */
  ghost predicate Certified(leg: Leg, anchor: Cursor) {
    && leg.disks != [] && Laws(leg.task) && Faithful(leg.task.links) && Inv(leg.task, Final(leg))
    && leg.task.ledger.path in Final(leg)
    && forall w: nat :: CertifiedFor(leg, anchor, w)
  }

  ghost predicate CertifiedFor(leg: Leg, anchor: Cursor, w: nat)
    requires leg.disks != [] && leg.task.ledger.path in Final(leg)
  {
    WindowOk(w) ==>
      && Open(At(leg.task, Final(leg), w), Final(leg)).Some?
      && Extension(leg.task.ledger.codec, leg.task.captured, anchor,
                   Open(At(leg.task, Final(leg), w), Final(leg)).value.cursor)
  }

  /** One run from its start. */
  lemma {:induction false} LegCertifies(leg: Leg, anchor: Cursor, first: nat)
    requires Laws(leg.task) && Faithful(leg.task.links) && RecoveryRun(leg.task, leg.disks, leg.windows)
    requires Start(leg.task, leg.disks[0], first)
    requires Extension(leg.task.ledger.codec, leg.task.captured, anchor, leg.task.ledger.anchor)
    ensures Certified(leg, anchor)
  {
    hide Extension, Inv, Laws, Open, Start;
    StartInv(leg.task, leg.disks[0], first);
    RunKeepsInv(leg.task, leg.disks, leg.windows);
    InvPath(leg.task, Final(leg));
    forall w: nat ensures CertifiedFor(leg, anchor, w) {
      if WindowOk(w) {
        RunCertifiesSource(leg.task, leg.disks, leg.windows, first, w);
        ExtensionsCompose(leg.task.ledger.codec, leg.task.captured, anchor, leg.task.ledger.anchor,
                          Open(At(leg.task, Final(leg), w), Final(leg)).value.cursor);
      }
    }
  }

  /** A rollover lets the child's run start with what the parent's kept. */
  lemma {:induction false} LegRollsOver(a: Leg, b: Leg, anchor: Cursor, title: string)
    requires Certified(a, anchor) && RollsInto(a, b, title)
    ensures Laws(b.task) && Faithful(b.task.links) && Start(b.task, b.disks[0], Kept(a.task, Final(a)))
    ensures b.task.ledger.codec == a.task.ledger.codec && b.task.captured == a.task.captured
    ensures Extension(b.task.ledger.codec, b.task.captured, anchor, b.task.ledger.anchor)
    ensures HistoryFull(a.task, Final(a))
  {
    hide Extension, HistoryFull, Inv, Kept, Laws, Open, RolloverSpec, Start;
    var r := Rollover(a.task.ledger, a.task.links, a.task.ledger.codec.sha256(Final(a)[a.task.ledger.path]), title);
    var (result, d') := RolloverSpec(r, Final(a));
    assert CertifiedFor(a, anchor, 1);
    ChildRunContinues(a.task, Final(a), r, result, d');
    assert WindowOk(1);
  }

  /** Beside a full history no attempt has staged anything, so what is kept is all that is held. */
  lemma {:induction false} FullHoldsKept(t: Task, d: Disk, a: nat, first: nat, reach: nat)
    requires Laws(t) && Reached(t, d, a, first, reach) && HistoryFull(t, d)
    ensures reach == Kept(t, d)
  {
    hide AttemptAged, FurthestAt, Inv, KeysOlder, Laws, Open;
    var o, inputs := HoldsAt(t, d, a);
    OpenAnyWindow(At(t, d, a), At(t, d, 1), d, o);
    FullKeepsSeeds(At(t, d, a), d, o, inputs);
    LawsAnyWindow(t, At(t, d, a));
    NoFilesYet(At(t, d, a), d, o);
    UnstagedIsKept(t, d, a);
  }

  /** The byte the last leg of a lineage starts with. */
  lemma {:induction false} LineageReaches(legs: seq<Leg>, first: nat) returns (start: nat)
    requires Lineage(legs, first)
    ensures Certified(legs[|legs| - 1], legs[0].task.ledger.anchor)
    ensures Start(legs[|legs| - 1].task, legs[|legs| - 1].disks[0], start)
    ensures AllSteady(legs[..|legs| - 1]) ==> Contiguous(AllCopies(legs[..|legs| - 1]), first, start)
    decreases |legs|
  {
    hide AllSteady, Certified, Contiguous, CopiesOf, Kept, Laws, RecoveryRun, RollsInto, Start;
    var n := |legs| - 1;
    var anchor := legs[0].task.ledger.anchor;
    assert RunOf(legs, n);
    if n == 0 {
      start := first;
      FirstAnchor(legs[0], first);
      LegCertifies(legs[0], anchor, first);
      NothingFollowsItself(first);
      assert legs[..0] == [];
    } else {
      LineagePrefix(legs, first);
      var before := LineageReaches(legs[..n], first);
      assert JoinAt(legs, n - 1);
      var title: string :| RollsInto(legs[n - 1], legs[n], title);
      LegRollsOver(legs[n - 1], legs[n], anchor, title);
      assert RunOf(legs, n - 1);
      RunHasDisks(legs[n - 1]);
      LastLaws(legs[n - 1], anchor);
      start := Kept(legs[n - 1].task, Final(legs[n - 1]));
      LegCertifies(legs[n], anchor, start);
      if AllSteady(legs[..n]) {
        assert legs[..n][..n - 1] == legs[..n - 1];
        SteadyLegs(legs, n);
        LegCopies(legs[n - 1], before);
        ContiguousJoins(AllCopies(legs[..n - 1]), CopiesOf(legs[n - 1]), first, before, start);
      }
    }
  }

  lemma {:induction false} RunHasDisks(leg: Leg)
    requires RecoveryRun(leg.task, leg.disks, leg.windows)
    ensures |leg.disks| == |leg.windows| + 1
  {
  }

  lemma {:induction false} NothingFollowsItself(first: nat)
    ensures Contiguous([], first, first)
  {
  }

  lemma {:induction false} SteadyLegs(legs: seq<Leg>, n: nat)
    requires 0 < n <= |legs| && AllSteady(legs[..n])
    ensures AllSteady(legs[..n - 1]) && AllSteady(legs[..n][..n - 1]) && SteadyLeg(legs, n - 1)
  {
    var before := legs[..n - 1];
    assert legs[..n][..n - 1] == before;
    assert SteadyLeg(legs[..n], n - 1);
    forall i | 0 <= i < n - 1 ensures SteadyLeg(before, i) { assert SteadyLeg(legs[..n], i); }
  }

  /** A steady leg that was filled copied from its start to what it kept. */
  lemma {:induction false} LegCopies(leg: Leg, first: nat)
    requires Laws(leg.task) && RecoveryRun(leg.task, leg.disks, leg.windows) && Start(leg.task, leg.disks[0], first)
    requires Steady(leg.task, leg.disks, leg.windows)
    requires leg.disks != [] && HistoryFull(leg.task, Final(leg))
    ensures Contiguous(CopiesOf(leg), first, Kept(leg.task, Final(leg)))
  {
    hide Contiguous, Copies, HistoryFull, Laws, Reached, Start, Steady;
    var a, reach := SteadyRunReaches(leg.task, leg.disks, leg.windows, first);
    FullHoldsKept(leg.task, Final(leg), a, first, reach);
  }

  /**
    The whole lineage. However many histories are filled and rolled over, with whatever windows, and
    however often their calls are interrupted, one pass over the source leads from the first anchor
    to the last cursor. If every run is steady, all the ranges copied follow one another without gap
    or overlap from the start.
   */
  lemma {:induction false} LineageCertifies(legs: seq<Leg>, first: nat) returns (reach: nat)
    requires Lineage(legs, first)
    ensures Certified(legs[|legs| - 1], legs[0].task.ledger.anchor)
    ensures AllSteady(legs) ==> Contiguous(AllCopies(legs), first, reach) && Total(AllCopies(legs)) == reach - first
  {
    hide AllSteady, Certified, Contiguous, CopiesOf, Laws, Reached, RollsInto, Start;
    var n := |legs| - 1;
    assert RunOf(legs, n);
    var start := LineageReaches(legs, first);
    reach := start;
    if AllSteady(legs) {
      assert legs[..|legs|] == legs;
      SteadyLegs(legs, |legs|);
      LastLaws(legs[n], legs[0].task.ledger.anchor);
      var a, last := SteadyRunReaches(legs[n].task, legs[n].disks, legs[n].windows, start);
      reach := last;
      LastCopies(legs[n]);
      ContiguousJoins(AllCopies(legs[..n]), CopiesOf(legs[n]), first, start, reach);
      ContiguousTotal(AllCopies(legs), first, reach);
    }
  }

  lemma {:induction false} LastLaws(leg: Leg, anchor: Cursor)
    requires Certified(leg, anchor)
    ensures Laws(leg.task)
  {
  }

  lemma {:induction false} LastCopies(leg: Leg)
    requires |leg.disks| == |leg.windows| + 1
    ensures CopiesOf(leg) == Copies(leg.task, leg.disks, leg.windows)
  {
  }

  lemma {:induction false} FirstAnchor(leg: Leg, first: nat)
    requires leg.disks != [] && Start(leg.task, leg.disks[0], first)
    ensures Extension(leg.task.ledger.codec, leg.task.captured, leg.task.ledger.anchor, leg.task.ledger.anchor)
  {
    hide StateCursor, LinkInputs;
    assert StartFor(leg.task, leg.disks[0], 1, first);
    OpenMeansPolicy(At(leg.task, leg.disks[0], 1), leg.disks[0]);
    ExtensionOfSelf(leg.task.ledger.codec, leg.task.captured, leg.task.ledger.anchor);
  }
}
