/** What holds over any run of serial watchdog passes with a clock that never goes back. */
module WatchdogRuns {
  import opened Foundations
  import opened Watchdog
  import opened WindowLog

  /** One pass: what it read, and whether the restart command, if it gave one, succeeded. */
  datatype Turn = Turn(seen: Observation, succeeded: bool)

  const NOTHING_YET := Memory(map[], [], 0.0, None, 0.0, 0.0, 0)

  function After(p: Policy, turns: seq<Turn>): Memory {
    if turns == [] then NOTHING_YET
    else
      var last := turns[|turns| - 1];
      AfterPass(p, After(p, turns[..|turns| - 1]), last.seen, last.succeeded)
  }

  /** The memory the decision of a pass is made on. */
  function Before(p: Policy, turns: seq<Turn>, seen: Observation): Memory {
    WithBaseline(After(p, turns), seen)
  }

  predicate Restarts(p: Policy, turns: seq<Turn>)
    requires turns != []
  {
    var last := turns[|turns| - 1];
    PlanFor(p, Before(p, turns[..|turns| - 1], last.seen), last.seen).restart && last.succeeded
  }

  /** The times of the restarts that succeeded. */
  function RestartLog(p: Policy, turns: seq<Turn>): seq<real> {
    if turns == [] then []
    else
      RestartLog(p, turns[..|turns| - 1]) + if Restarts(p, turns) then [turns[|turns| - 1].seen.now] else []
  }

  ghost predicate ClockOk(turns: seq<Turn>) {
    forall i, j :: 0 <= i < j < |turns| ==> turns[i].seen.now <= turns[j].seen.now
  }

  // ----- The restart bound -----

  /** The watchdog remembers the tail of the log and its last entry, and the log keeps both bounds. */
  ghost predicate LogOk(p: Policy, m: Memory, log: seq<real>, now: real) {
    && Remembers(m.restartTimes, log, p.window, now)
    && (log != [] ==> m.lastRestart == log[|log| - 1])
    && Spaced(log, p.cooldown) && Budgeted(log, p.maxRestarts, p.window)
  }

  /** Pruning at a later time keeps the tail. */
  lemma {:induction false} PruneKeepsLog(p: Policy, m: Memory, log: seq<real>, before: real, now: real)
    requires LogOk(p, m, log, before) && before <= now
    ensures LogOk(p, m.(restartTimes := Recent(m.restartTimes, now, p.window)), log, now)
  {
    PruneRemembers(m.restartTimes, log, p.window, before, now);
  }

  /** A permitted restart keeps both bounds. */
  lemma {:induction false} RestartKeepsLog(p: Policy, m: Memory, log: seq<real>, now: real)
    requires LogOk(p, m, log, now) && now - m.lastRestart >= p.cooldown && |m.restartTimes| < p.maxRestarts
    ensures LogOk(p, m.(restartTimes := m.restartTimes + [now], lastRestart := now), log + [now], now)
  {
    hide Budgeted, Remembers, Spaced;
    assert (log + [now])[|log|] == now;
    RememberGrows(m.restartTimes, log, p.window, now);
    SpacedGrows(log, now, p.cooldown);
    BudgetedGrows(m.restartTimes, log, p.maxRestarts, p.window, now);
  }

  lemma {:induction false} RunKeepsLog(p: Policy, turns: seq<Turn>)
    requires turns != [] && ClockOk(turns)
    ensures LogOk(p, After(p, turns), RestartLog(p, turns), turns[|turns| - 1].seen.now)
    decreases |turns|
  {
    hide AfterPass, ClockOk, LogOk, PlanFor;
    var n := |turns| - 1;
    var before, last := turns[..n], turns[n];
    var prior := if n == 0 then last.seen.now else turns[n - 1].seen.now;
    ClockGoesOn(turns);
    if n == 0 {
      EmptyLog(p, prior);
    } else {
      RunKeepsLog(p, before);
    }
    TurnKeepsLog(p, After(p, before), RestartLog(p, before), last, prior);
  }

  lemma {:induction false} ClockGoesOn(turns: seq<Turn>)
    requires ClockOk(turns) && turns != []
    ensures ClockOk(turns[..|turns| - 1])
    ensures |turns| > 1 ==> turns[|turns| - 2].seen.now <= turns[|turns| - 1].seen.now
  {
  }

  lemma {:induction false} EmptyLog(p: Policy, now: real)
    ensures LogOk(p, NOTHING_YET, [], now)
  {
  }

  /** One pass, and the restart it may make. */
  lemma {:induction false} TurnKeepsLog(p: Policy, after: Memory, log: seq<real>, turn: Turn, prior: real)
    requires prior <= turn.seen.now && LogOk(p, after, log, prior)
    ensures var restarts := PlanFor(p, WithBaseline(after, turn.seen), turn.seen).restart && turn.succeeded;
            LogOk(p, AfterPass(p, after, turn.seen, turn.succeeded), log + if restarts then [turn.seen.now] else [],
                  turn.seen.now)
  {
    hide CapChange, LogOk, NextCounts, Recent, RepairReasons, SeenBy;
    var m, now := WithBaseline(after, turn.seen), turn.seen.now;
    SameRestarts(p, after, m, log, prior);
    PruneKeepsLog(p, m, log, prior, now);
    var d := Decided(p, m, turn.seen);
    SameRestarts(p, m.(restartTimes := Recent(m.restartTimes, now, p.window)), d, log, now);
    if PlanFor(p, m, turn.seen).restart && turn.succeeded {
      RestartKeepsLog(p, d, log, now);
    } else {
      assert log + [] == log;
    }
  }

  lemma {:induction false} SameRestarts(p: Policy, m: Memory, m': Memory, log: seq<real>, now: real)
    requires LogOk(p, m, log, now) && m'.restartTimes == m.restartTimes && m'.lastRestart == m.lastRestart
    ensures LogOk(p, m', log, now)
  {
  }

  /**
    The restart bound. Over any run of passes with a clock that never goes back, restarts that
    succeeded are at least the cooldown apart, and no window holds more of them than the budget.
   */
  lemma {:induction false} RestartsAreBounded(p: Policy, turns: seq<Turn>)
    requires ClockOk(turns)
    ensures var log := RestartLog(p, turns);
            Sorted(log) && Spaced(log, p.cooldown) && Budgeted(log, p.maxRestarts, p.window)
  {
    if turns != [] { RunKeepsLog(p, turns); }
  }

  /** With the values the program runs with: five minutes between restarts, and three in an hour. */
  lemma {:induction false} LiveRestartsAreBounded(turns: seq<Turn>)
    requires ClockOk(turns)
    ensures var log := RestartLog(LIVE_POLICY, turns); Spaced(log, 300.0) && Budgeted(log, 3, 3600.0)
  {
    RestartsAreBounded(LIVE_POLICY, turns);
  }

  // ----- Persistence -----

  /** What the last of some passes saw. */
  function SeenLast(p: Policy, turns: seq<Turn>): set<string>
    requires turns != []
  {
    var last := turns[|turns| - 1];
    SeenBy(p, Before(p, turns[..|turns| - 1], last.seen), last.seen)
  }

  /** How many passes in a row, up to the last, saw a reason. */
  function Streak(p: Policy, turns: seq<Turn>, r: string): nat {
    if turns == [] || r !in SeenLast(p, turns) then 0 else Streak(p, turns[..|turns| - 1], r) + 1
  }

  lemma {:induction false} CountsAreStreaks(p: Policy, turns: seq<Turn>, r: string)
    ensures CountOf(After(p, turns).counts, r) == Streak(p, turns, r)
    decreases |turns|
  {
    hide SeenBy, PlanFor, CapChange, Recent;
    if turns != [] { CountsAreStreaks(p, turns[..|turns| - 1], r); }
  }

  /** Each of the last n passes saw the reason. */
  ghost predicate SeenInLast(p: Policy, turns: seq<Turn>, r: string, n: nat) {
    n <= |turns| && forall k :: |turns| - n < k <= |turns| ==> r in SeenLast(p, turns[..k])
  }

  /** A streak of n passes is n passes in a row that each saw the reason. */
  lemma {:induction false} StreakMeansSeen(p: Policy, turns: seq<Turn>, r: string, n: nat)
    ensures n <= Streak(p, turns, r) <==> SeenInLast(p, turns, r, n)
    decreases |turns|
  {
    hide SeenLast;
    if turns != [] && n > 0 {
      var before := turns[..|turns| - 1];
      StreakMeansSeen(p, before, r, n - 1);
      assert turns[..|turns|] == turns;
      assert forall k :: 0 <= k <= |before| ==> before[..k] == turns[..k];
    }
  }

  /**
    A fault that may wait is repaired exactly when it persists: a pass whose restart is permitted
    names it as a reason if and only if it was seen in that many consecutive passes, this one included.
   */
  lemma {:induction false} OnlyPersistentFaultsRepaired(p: Policy, turns: seq<Turn>, r: string)
    requires turns != []
    ensures var last := turns[|turns| - 1];
            var m := Before(p, turns[..|turns| - 1], last.seen);
            var plan := PlanFor(p, m, last.seen);
            && (r in plan.reasons && r !in Immediate(p, last.seen) ==> SeenInLast(p, turns, r, p.persistentRuns))
            && (plan.restart && r in Persistent(p, m, last.seen) && SeenInLast(p, turns, r, p.persistentRuns) ==>
                  r in plan.reasons)
  {
    hide CapChange, Recent, Immediate, Persistent, SeenInLast;
    var last := turns[|turns| - 1];
    StreakMeansSeen(p, turns, r, p.persistentRuns);
    CountsAreStreaks(p, turns[..|turns| - 1], r);
    var m := Before(p, turns[..|turns| - 1], last.seen);
    assert CountOf(NextCounts(m.counts, SeenBy(p, m, last.seen)), r) == Streak(p, turns, r)
      || r !in SeenBy(p, m, last.seen);
  }
}
