/** The resident token cap when only the watchdog edits it and every edit lands. */
module TokenCap {
  import opened Foundations
  import opened Watchdog
  import opened WatchdogRuns
  import opened WindowLog

  datatype CapState = CapState(memory: Memory, cap: int)

  /** The pass reads the cap as it is. */
  function Reading(s: CapState, o: Observation): Observation {
    o.(cap := Some(s.cap))
  }

  function MemoryAt(s: CapState, o: Observation): Memory {
    WithBaseline(s.memory, Reading(s, o))
  }

  function ChangeAt(p: Policy, s: CapState, o: Observation): Option<int> {
    CapChange(p, MemoryAt(s, o), Reading(s, o))
  }

  function CapStep(p: Policy, s: CapState, t: Turn): CapState {
    CapState(AfterPass(p, s.memory, Reading(s, t.seen), t.succeeded),
             match ChangeAt(p, s, t.seen) case None => s.cap case Some(c) => c)
  }

  function CapFrom(p: Policy, s: CapState, turns: seq<Turn>): CapState {
    if turns == [] then s else CapStep(p, CapFrom(p, s, turns[..|turns| - 1]), turns[|turns| - 1])
  }

  /** Before the first pass the file holds the cap that becomes the baseline. */
  function Start(cap: int): CapState {
    CapState(NOTHING_YET, cap)
  }

  function KillsAt(p: Policy, s: CapState, o: Observation): seq<real> {
    CountedKills(o.kills, o.now, p.oomWindow, s.memory.capChangedAt)
  }

  predicate Shrinks(p: Policy, s: CapState, o: Observation) {
    ChangeAt(p, s, o).Some? && ChangeAt(p, s, o).value < s.cap
  }

  // ----- Bounds -----

  predicate InBounds(p: Policy, baseline: int, s: CapState) {
    Min(baseline, p.capFloor) <= s.cap <= baseline
    && (s.memory.capBaseline == baseline || (s.memory.capBaseline == 0 && s.cap == baseline))
  }

  lemma {:induction false} StepStaysInBounds(p: Policy, baseline: int, s: CapState, t: Turn)
    requires baseline >= 1 && InBounds(p, baseline, s)
    ensures InBounds(p, baseline, CapStep(p, s, t)) && CapStep(p, s, t).memory.capBaseline == baseline
  {
    hide CountedKills, NextCounts, Recent, RepairReasons, SeenBy;
  }

  /** In every reachable state the cap is between the smaller of baseline and floor, and the baseline. */
  lemma {:induction false} CapStaysInBounds(p: Policy, baseline: int, turns: seq<Turn>)
    requires baseline >= 1
    ensures InBounds(p, baseline, CapFrom(p, Start(baseline), turns))
    decreases |turns|
  {
    hide InBounds, CapStep;
    if turns == [] {
      StartInBounds(p, baseline);
    } else {
      CapStaysInBounds(p, baseline, turns[..|turns| - 1]);
      StepStaysInBounds(p, baseline, CapFrom(p, Start(baseline), turns[..|turns| - 1]), turns[|turns| - 1]);
    }
  }

  lemma {:induction false} StartInBounds(p: Policy, baseline: int)
    requires baseline >= 1
    ensures InBounds(p, baseline, Start(baseline))
  {
  }

  // ----- Each shrink has kills of its own -----

  /** No pass reads a kill that is still to come. */
  predicate KillsArePast(turns: seq<Turn>) {
    forall i :: 0 <= i < |turns| ==> forall k :: k in turns[i].seen.kills ==> k <= turns[i].seen.now
  }

  /** Only a change moves the time of the last change, and it moves it to now. */
  lemma {:induction false} ChangeTime(p: Policy, s: CapState, t: Turn)
    ensures CapStep(p, s, t).memory.capChangedAt
         == if ChangeAt(p, s, t.seen).Some? then t.seen.now else s.memory.capChangedAt
  {
    hide CapChange, NextCounts, Recent, RepairReasons, SeenBy;
  }

  /** The time of the last change never goes back behind a change. */
  lemma {:induction false} ChangeTimeHolds(p: Policy, s: CapState, turns: seq<Turn>, i: nat)
    requires ClockOk(turns) && i < |turns| && ChangeAt(p, CapFrom(p, s, turns[..i]), turns[i].seen).Some?
    ensures CapFrom(p, s, turns).memory.capChangedAt >= turns[i].seen.now
    decreases |turns|
  {
    hide CapStep, ChangeAt;
    var n := |turns| - 1;
    ChangeTime(p, CapFrom(p, s, turns[..n]), turns[n]);
    if i < n {
      assert turns[..n][..i] == turns[..i] && turns[..n][i] == turns[i];
      ChangeTimeHolds(p, s, turns[..n], i);
    }
  }

  lemma {:induction false} ShrinkHasKills(p: Policy, s: CapState, o: Observation)
    requires Shrinks(p, s, o) && s.cap >= 0
    ensures |KillsAt(p, s, o)| >= p.killsBeforeShrink
  {
    hide CountedKills;
  }

  /**
    Any two shrinks rest on different kills: each on at least the required number, and every kill
    behind the later one came after every kill behind the earlier one.
   */
  lemma {:induction false} ShrinksHaveTheirOwnKills(p: Policy, baseline: int, turns: seq<Turn>, i: nat, j: nat)
    requires baseline >= 1 && ClockOk(turns) && KillsArePast(turns) && i < j < |turns|
    requires Shrinks(p, CapFrom(p, Start(baseline), turns[..i]), turns[i].seen)
    requires Shrinks(p, CapFrom(p, Start(baseline), turns[..j]), turns[j].seen)
    ensures var first := KillsAt(p, CapFrom(p, Start(baseline), turns[..i]), turns[i].seen);
            var later := KillsAt(p, CapFrom(p, Start(baseline), turns[..j]), turns[j].seen);
            && |first| >= p.killsBeforeShrink && |later| >= p.killsBeforeShrink
            && forall x, y :: x in first && y in later ==> x < y
  {
    hide CapFrom, CapStep;
    var s := Start(baseline);
    CapStaysInBounds(p, baseline, turns[..i]);
    CapStaysInBounds(p, baseline, turns[..j]);
    ShrinkHasKills(p, CapFrom(p, s, turns[..i]), turns[i].seen);
    ShrinkHasKills(p, CapFrom(p, s, turns[..j]), turns[j].seen);
    assert turns[..j][..i] == turns[..i] && turns[..j][i] == turns[i];
    ChangeTimeHolds(p, s, turns[..j], i);
  }

  // ----- Growing back -----

  /** A pass that reads only kills which are out of the window. */
  predicate Clean(p: Policy, t: Turn, lastKill: real) {
    (forall k :: k in t.seen.kills ==> k <= lastKill) && t.seen.now - lastKill > p.oomWindow
  }

  ghost predicate AllClean(p: Policy, turns: seq<Turn>, lastKill: real) {
    forall i :: 0 <= i < |turns| ==> Clean(p, turns[i], lastKill)
  }

  /** The clock counts from an epoch that is past, so a change is never remembered as never. */
  ghost predicate AfterEpoch(turns: seq<Turn>) {
    forall i :: 0 <= i < |turns| ==> turns[i].seen.now > 0.0
  }

  /** The pass comes more than a recovery period after the last change. */
  predicate Due(p: Policy, s: CapState, t: Turn) {
    t.seen.now - s.memory.capChangedAt > p.recovery
  }

  /** How many of the passes come more than a recovery period after the change before them. */
  function Recoveries(p: Policy, s: CapState, turns: seq<Turn>): nat {
    if turns == [] then 0
    else
      var n := |turns| - 1;
      Recoveries(p, s, turns[..n]) + if Due(p, CapFrom(p, s, turns[..n]), turns[n]) then 1 else 0
  }

  lemma {:induction false} OldKillsDoNotCount(kills: seq<real>, now: real, window: real, changedAt: real, lastKill: real)
    requires (forall k :: k in kills ==> k <= lastKill) && now - lastKill > window
    ensures CountedKills(kills, now, window, changedAt) == []
    decreases |kills|
  {
    if kills != [] {
      var before := kills[..|kills| - 1];
      assert kills[|kills| - 1] in kills;
      forall k | k in before ensures k <= lastKill {
        var i :| 0 <= i < |before| && before[i] == k;
        assert kills[i] in kills;
      }
      OldKillsDoNotCount(before, now, window, changedAt, lastKill);
    }
  }

  /** A cap below the baseline has been changed, at a time that is remembered. */
  predicate ChangeKnown(baseline: int, s: CapState) {
    s.cap < baseline ==> s.memory.capChangedAt != 0.0
  }

  /** Only a change lowers the cap. */
  lemma {:induction false} ChangeStaysKnown(p: Policy, baseline: int, s: CapState, t: Turn)
    requires ChangeKnown(baseline, s) && t.seen.now > 0.0
    ensures ChangeKnown(baseline, CapStep(p, s, t))
  {
    hide ChangeAt;
    ChangeTime(p, s, t);
  }

  lemma {:induction false} ChangesAreKnown(p: Policy, baseline: int, turns: seq<Turn>)
    requires AfterEpoch(turns)
    ensures ChangeKnown(baseline, CapFrom(p, Start(baseline), turns))
    decreases |turns|
  {
    hide CapStep, ChangeKnown;
    if turns == [] {
      StartIsKnown(baseline);
    } else {
      var n := |turns| - 1;
      ChangesAreKnown(p, baseline, turns[..n]);
      ChangeStaysKnown(p, baseline, CapFrom(p, Start(baseline), turns[..n]), turns[n]);
    }
  }

  lemma {:induction false} StartIsKnown(baseline: int)
    ensures ChangeKnown(baseline, Start(baseline))
  {
  }

  /**
    A clean pass that is due multiplies a low cap by five thirds, up to the baseline, so that it
    grows by at least a half; any other clean pass leaves the cap and the time of its change alone.
   */
  lemma {:induction false} CleanPass(p: Policy, baseline: int, s: CapState, t: Turn, lastKill: real)
    requires p.capFloor >= 2 && p.killsBeforeShrink >= 1 && baseline >= 1 && InBounds(p, baseline, s)
    requires ChangeKnown(baseline, s) && Clean(p, t, lastKill)
    ensures var end := CapStep(p, s, t);
            && end.cap == (if Due(p, s, t) && s.cap < baseline then Regrown(s.cap, baseline) else s.cap)
            && end.memory.capChangedAt
               == (if Due(p, s, t) && s.cap < baseline then t.seen.now else s.memory.capChangedAt)
            && s.cap <= end.cap <= baseline && (Due(p, s, t) ==> end.cap >= Min(baseline, s.cap + s.cap / 2))
  {
    hide NextCounts, Recent, RepairReasons, SeenBy;
    OldKillsDoNotCount(t.seen.kills, t.seen.now, p.oomWindow, s.memory.capChangedAt, lastKill);
  }

  /** What holds at the end of any clean passes after any history. */
  lemma {:induction false} CleanPassesGrow(p: Policy, baseline: int, s: CapState, turns: seq<Turn>, lastKill: real)
    requires p.capFloor >= 2 && p.killsBeforeShrink >= 1 && baseline >= 1 && InBounds(p, baseline, s)
    requires ChangeKnown(baseline, s) && AllClean(p, turns, lastKill) && AfterEpoch(turns)
    ensures var end := CapFrom(p, s, turns);
            && InBounds(p, baseline, end) && ChangeKnown(baseline, end)
            && s.cap <= end.cap <= baseline
            && end.cap >= Min(baseline, s.cap + Recoveries(p, s, turns) * (s.cap / 2))
    decreases |turns|
  {
    hide CapStep, ChangeKnown, Clean, Due;
    if turns != [] {
      var n := |turns| - 1;
      var prior := CapFrom(p, s, turns[..n]);
      CleanPassesGrow(p, baseline, s, turns[..n], lastKill);
      CleanPass(p, baseline, prior, turns[n], lastKill);
      StepStaysInBounds(p, baseline, prior, turns[n]);
      ChangeStaysKnown(p, baseline, prior, turns[n]);
      OneMoreHalf(s.cap, Recoveries(p, s, turns[..n]));
    }
  }

  lemma {:induction false} OneMoreHalf(cap: int, n: nat)
    ensures (n + 1) * (cap / 2) == n * (cap / 2) + cap / 2
  {
  }

  lemma {:induction false} CapFromSplits(p: Policy, s: CapState, before: seq<Turn>, after: seq<Turn>)
    ensures CapFrom(p, s, before + after) == CapFrom(p, CapFrom(p, s, before), after)
    decreases |after|
  {
    hide CapStep;
    if after == [] {
      assert before + after == before;
    } else {
      var n := |after| - 1;
      assert (before + after)[..|before + after| - 1] == before + after[..n];
      CapFromSplits(p, s, before, after[..n]);
    }
  }

  lemma {:induction false} EpochSplits(before: seq<Turn>, after: seq<Turn>)
    requires AfterEpoch(before + after)
    ensures AfterEpoch(before) && AfterEpoch(after)
  {
    forall i | 0 <= i < |before| ensures before[i].seen.now > 0.0 { assert (before + after)[i] == before[i]; }
    forall i | 0 <= i < |after| ensures after[i].seen.now > 0.0 { assert (before + after)[|before| + i] == after[i]; }
  }

  /**
    The cap comes back. After any history, once the last kill is out of the window, whatever passes
    follow: the cap never falls, and each of them that comes more than a recovery period after the
    last change brings it at least half the cap they started from closer to the baseline.
   */
  lemma {:induction false} CapReturnsToBaseline(p: Policy, baseline: int, history: seq<Turn>, turns: seq<Turn>, lastKill: real)
    requires p.capFloor >= 2 && p.killsBeforeShrink >= 1 && baseline >= 1
    requires AfterEpoch(history + turns) && AllClean(p, turns, lastKill)
    ensures var s := CapFrom(p, Start(baseline), history);
            var end := CapFrom(p, Start(baseline), history + turns);
            && s.cap <= end.cap <= baseline
            && end.cap >= Min(baseline, s.cap + Recoveries(p, s, turns) * (s.cap / 2))
  {
    hide CapFrom, InBounds, Recoveries;
    assert AfterEpoch(history) && AfterEpoch(turns) by { EpochSplits(history, turns); }
    CapStaysInBounds(p, baseline, history);
    ChangesAreKnown(p, baseline, history);
    CleanPassesGrow(p, baseline, CapFrom(p, Start(baseline), history), turns, lastKill);
    CapFromSplits(p, Start(baseline), history, turns);
  }

  /** Passes that follow one another at most `gap` apart. */
  ghost predicate Within(turns: seq<Turn>, gap: real) {
    forall i :: 0 < i < |turns| ==> turns[i].seen.now - turns[i - 1].seen.now <= gap
  }

  /** The time that n recoveries may take. */
  function TimeFor(p: Policy, gap: real, n: nat): real {
    n as real * (p.recovery + gap)
  }

  lemma {:induction false} TimeGrows(p: Policy, gap: real, m: nat, n: nat)
    requires m <= n && p.recovery + gap >= 0.0
    ensures TimeFor(p, gap, m) <= TimeFor(p, gap, n)
    ensures TimeFor(p, gap, n + 1) == TimeFor(p, gap, n) + p.recovery + gap
    decreases n
  {
    assert (n + 1) as real == n as real + 1.0;
    if m < n { TimeGrows(p, gap, m, n - 1); }
  }

  /** While the cap is low, a recovery comes at least once in each recovery period and gap. */
  lemma {:induction false} RecoveriesKeepPace(p: Policy, baseline: int, s: CapState, turns: seq<Turn>, lastKill: real, gap: real)
    requires p.capFloor >= 2 && p.killsBeforeShrink >= 1 && baseline >= 1 && InBounds(p, baseline, s)
    requires ChangeKnown(baseline, s) && AllClean(p, turns, lastKill) && AfterEpoch(turns)
    requires turns != [] && Within(turns, gap) && p.recovery >= 0.0 && gap >= 0.0
    requires s.memory.capChangedAt <= turns[0].seen.now
    ensures var end := CapFrom(p, s, turns);
            end.cap == baseline
            || (turns[|turns| - 1].seen.now <= end.memory.capChangedAt + p.recovery
                && end.memory.capChangedAt <= turns[0].seen.now + TimeFor(p, gap, Recoveries(p, s, turns)))
    decreases |turns|
  {
    hide CapStep, ChangeKnown, Clean, InBounds, TimeFor;
    var n := |turns| - 1;
    var prior := CapFrom(p, s, turns[..n]);
    CleanPassesGrow(p, baseline, s, turns[..n], lastKill);
    CleanPass(p, baseline, prior, turns[n], lastKill);
    TimeGrows(p, gap, 0, Recoveries(p, s, turns[..n]));
    TimeStarts(p, gap);
    if n > 0 {
      assert turns[..n][n - 1] == turns[n - 1];
      RecoveriesKeepPace(p, baseline, s, turns[..n], lastKill, gap);
    }
  }

  lemma {:induction false} TimeStarts(p: Policy, gap: real)
    ensures TimeFor(p, gap, 0) == 0.0
  {
  }

  lemma {:induction false} ChangesArePast(p: Policy, s: CapState, turns: seq<Turn>, now: real)
    requires s.memory.capChangedAt <= now && forall i :: 0 <= i < |turns| ==> turns[i].seen.now <= now
    ensures CapFrom(p, s, turns).memory.capChangedAt <= now
    decreases |turns|
  {
    hide CapStep, ChangeAt;
    if turns != [] {
      var n := |turns| - 1;
      ChangesArePast(p, s, turns[..n], now);
      ChangeTime(p, CapFrom(p, s, turns[..n]), turns[n]);
    }
  }

  /**
    It comes back in time. When clean passes come at most `gap` apart for longer than n times the
    recovery period and the gap, and one recovery period more, n + 1 halves of the cap they started
    from have been regained: if those make up for what was missing, the cap is the baseline.
   */
  lemma {:induction false} CapReturnsInTime(p: Policy, baseline: int, history: seq<Turn>, turns: seq<Turn>,
                                            lastKill: real, gap: real, n: nat)
    requires p.capFloor >= 2 && p.killsBeforeShrink >= 1 && baseline >= 1 && p.recovery >= 0.0 && gap >= 0.0
    requires ClockOk(history + turns) && AfterEpoch(history + turns) && AllClean(p, turns, lastKill)
    requires turns != [] && Within(turns, gap)
    requires turns[|turns| - 1].seen.now - turns[0].seen.now > TimeFor(p, gap, n) + p.recovery
    requires var cap := CapFrom(p, Start(baseline), history).cap; (n + 1) * (cap / 2) >= baseline - cap
    ensures CapFrom(p, Start(baseline), history + turns).cap == baseline
  {
    hide CapFrom, InBounds, Recoveries, TimeFor;
    var s := CapFrom(p, Start(baseline), history);
    EpochSplits(history, turns);
    HistoryIsPast(history, turns);
    CapStaysInBounds(p, baseline, history);
    ChangesAreKnown(p, baseline, history);
    ChangesArePast(p, Start(baseline), history, turns[0].seen.now);
    CapReturnsToBaseline(p, baseline, history, turns, lastKill);
    CapFromSplits(p, Start(baseline), history, turns);
    RecoveriesKeepPace(p, baseline, s, turns, lastKill, gap);
    var count := Recoveries(p, s, turns);
    if count <= n {
      TimeGrows(p, gap, count, n);
    } else {
      InBoundsIsPositive(p, baseline, s);
      HalvesGrow(s.cap, n + 1, count);
    }
  }

  lemma {:induction false} HistoryIsPast(history: seq<Turn>, turns: seq<Turn>)
    requires ClockOk(history + turns) && turns != []
    ensures forall i :: 0 <= i < |history| ==> history[i].seen.now <= turns[0].seen.now
  {
    var all := history + turns;
    forall i | 0 <= i < |history| ensures history[i].seen.now <= turns[0].seen.now {
      assert all[i] == history[i] && all[|history|] == turns[0];
    }
  }

  lemma {:induction false} InBoundsIsPositive(p: Policy, baseline: int, s: CapState)
    requires InBounds(p, baseline, s) && baseline >= 1
    ensures s.cap >= 0
  {
  }

  lemma {:induction false} HalvesGrow(cap: int, m: nat, n: nat)
    requires cap >= 0 && m <= n
    ensures m * (cap / 2) <= n * (cap / 2)
    decreases n
  {
    if m < n {
      OneMoreHalf(cap, n - 1);
      HalvesGrow(cap, m, n - 1);
    }
  }
}
