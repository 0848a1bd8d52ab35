/** One decision of the watchdog by its conditions, and what a stalled signal count means over a run. */
module WatchdogForm {
  import opened Foundations
  import opened Watchdog
  import opened WatchdogRuns
  import opened WindowLog

  // ----- Restarts -----

  /** The service is up and its readiness report is there and not too old. */
  predicate Reporting(p: Policy, o: Observation) {
    o.serviceActive && match o.readinessAge case None => false case Some(age) => age <= p.staleSeconds
  }

  /** The report counts as many mentions as before, and has done so for longer than the stall time. */
  predicate Stalls(p: Policy, m: Memory, o: Observation) {
    match o.mentions
    case None => false
    case Some(count) => m.mentions == Some(count) && m.mentionsAt != 0.0 && o.now - m.mentionsAt > p.telegramStall
  }

  /** A waiting fault seen now, and in as many passes before it as make up the required runs. */
  predicate Waits(p: Policy, m: Memory, o: Observation, r: string) {
    (r in o.faults || (r == "telegram_signals_stalled" && Stalls(p, m, o)))
    && (if r in m.counts then m.counts[r] else 0) + 1 >= p.persistentRuns
  }

  /** How many remembered restarts lie inside the window. */
  function RecentRestarts(m: Memory, now: real, window: real): nat {
    |set i: nat | i < |m.restartTimes| && now - m.restartTimes[i] <= window|
  }

  /** The one reason that stands above all reports, if any does. */
  predicate Down(p: Policy, o: Observation, r: string) {
    || (r == "desk_service_inactive" && !o.serviceActive)
    || (r == "readiness_missing" && o.serviceActive && o.readinessAge == None)
    || (r == "readiness_stale" && o.serviceActive && o.readinessAge.Some? && o.readinessAge.value > p.staleSeconds)
  }

  lemma {:induction false} RecentAreCounted(times: seq<real>, now: real, window: real)
    ensures |Recent(times, now, window)| == |set i: nat | i < |times| && now - times[i] <= window|
    decreases |times|
  {
    var all := set i: nat | i < |times| && now - times[i] <= window;
    if times != [] {
      var n := |times| - 1;
      var before := times[..n];
      RecentAreCounted(before, now, window);
      var some := set i: nat | i < |before| && now - before[i] <= window;
      assert all == if now - times[n] <= window then some + {n} else some;
    }
  }

  /** A pass has a reason to restart exactly when one of these holds, and it names no other. */
  lemma {:induction false} ReasonsExactly(p: Policy, m: Memory, o: Observation, r: string)
    ensures r in RepairReasons(p, m, o) <==> Down(p, o, r) || (Reporting(p, o) && Waits(p, m, o, r))
    ensures !Reporting(p, o) ==> |RepairReasons(p, m, o)| == 1
  {
    hide Persisting, NextCounts;
    var persistent := Persistent(p, m, o);
    var counts := NextCounts(m.counts, SeenBy(p, m, o));
    var kept := Persisting(persistent, counts, p.persistentRuns);
    if r in persistent { SeenCountsOn(m.counts, SeenBy(p, m, o), r); }
    assert r in kept <==> r in persistent && CountOf(counts, r) >= p.persistentRuns;
    if !Reporting(p, o) { NothingPersists(counts, p.persistentRuns); }
  }

  lemma {:induction false} SeenCountsOn(counts: map<string, nat>, seen: set<string>, r: string)
    requires r in seen
    ensures CountOf(NextCounts(counts, seen), r) == (if r in counts then counts[r] else 0) + 1
  {
  }

  lemma {:induction false} NothingPersists(counts: map<string, nat>, runs: nat)
    ensures Persisting([], counts, runs) == []
  {
  }

  /**
    When a pass restarts the desk: exactly when there is a reason, the cooldown is over and the
    window holds fewer restarts than the budget. With a reason but one of the others missing it
    is suppressed; a restart carries all its reasons.
   */
  lemma {:induction false} RestartsExactly(p: Policy, m: Memory, o: Observation)
    ensures var plan := PlanFor(p, m, o);
            var allowed := o.now - m.lastRestart >= p.cooldown && RecentRestarts(m, o.now, p.window) < p.maxRestarts;
            var wanted := exists r: string :: Down(p, o, r) || (Reporting(p, o) && Waits(p, m, o, r));
            && (plan.restart <==> wanted && allowed)
            && (plan.suppressed <==> wanted && !allowed)
            && forall r: string :: r in plan.reasons <==>
                 plan.restart && (Down(p, o, r) || (Reporting(p, o) && Waits(p, m, o, r)))
  {
    hide RepairReasons, CapChange, Down, Waits, Reporting, Recent;
    RecentAreCounted(m.restartTimes, o.now, p.window);
    forall r: string ensures r in RepairReasons(p, m, o) <==> Down(p, o, r) || (Reporting(p, o) && Waits(p, m, o, r)) {
      ReasonsExactly(p, m, o, r);
    }
    var reasons := RepairReasons(p, m, o);
    if reasons != [] { assert reasons[0] in reasons; }
  }

  /** With the program's own values: the desk is taken for down after three minutes without a report. */
  lemma {:induction false} LiveDeskDown(m: Memory, o: Observation)
    requires m.lastRestart + 300.0 <= o.now && |m.restartTimes| < 3
    requires !o.serviceActive || o.readinessAge == None || o.readinessAge.value > 180.0
    ensures PlanFor(LIVE_POLICY, m, o).restart
  {
    hide Recent, RepairReasons, CapChange;
    RestartsExactly(LIVE_POLICY, m, o);
    FewRemembered(m, o.now, LIVE_POLICY.window);
    var r := if !o.serviceActive then "desk_service_inactive"
             else if o.readinessAge == None then "readiness_missing" else "readiness_stale";
    assert Down(LIVE_POLICY, o, r);
  }

  lemma {:induction false} FewRemembered(m: Memory, now: real, window: real)
    ensures RecentRestarts(m, now, window) <= |m.restartTimes|
  {
    hide Recent;
    RecentAreCounted(m.restartTimes, now, window);
    RecentAreFewer(m.restartTimes, now, window);
  }

  lemma {:induction false} RecentAreFewer(times: seq<real>, now: real, window: real)
    ensures |Recent(times, now, window)| <= |times|
    decreases |times|
  {
    if times != [] { RecentAreFewer(times[..|times| - 1], now, window); }
  }

  // ----- The cap -----

  /** How many kills lie inside the window and after the last change of the cap. */
  function KillsSince(m: Memory, o: Observation, window: real): nat {
    |set i: nat | i < |o.kills| && o.now - o.kills[i] <= window && m.capChangedAt < o.kills[i]|
  }

  lemma {:induction false} KillsAreCounted(kills: seq<real>, now: real, window: real, changedAt: real)
    ensures |CountedKills(kills, now, window, changedAt)|
         == |set i: nat | i < |kills| && now - kills[i] <= window && changedAt < kills[i]|
    decreases |kills|
  {
    var all := set i: nat | i < |kills| && now - kills[i] <= window && changedAt < kills[i];
    if kills != [] {
      var n := |kills| - 1;
      var before := kills[..n];
      KillsAreCounted(before, now, window, changedAt);
      var some := set i: nat | i < |before| && now - before[i] <= window && changedAt < before[i];
      assert all == if now - kills[n] <= window && changedAt < kills[n] then some + {n} else some;
    }
  }

  /** Enough kills: the cap falls to the largest number within three fifths of it, or to the floor. */
  predicate FallsTo(p: Policy, m: Memory, o: Observation, cap: int, c: int) {
    && KillsSince(m, o, p.oomWindow) >= p.killsBeforeShrink && c < cap
    && (c == p.capFloor || (5 * c <= 3 * cap && p.capFloor <= c))
    && 5 * (c + 1) > 3 * cap
  }

  /** No kill for the recovery time: it rises to the largest number within five thirds of it, or to the baseline. */
  predicate RisesTo(p: Policy, m: Memory, o: Observation, cap: int, c: int) {
    && KillsSince(m, o, p.oomWindow) == 0 && p.killsBeforeShrink > 0
    && m.capBaseline != 0 && cap < m.capBaseline && m.capChangedAt != 0.0
    && o.now - m.capChangedAt > p.recovery
    && c <= m.capBaseline && 3 * c <= 5 * cap && (c == m.capBaseline || 3 * (c + 1) > 5 * cap)
  }

  /** When a pass changes the cap, and to what. */
  lemma {:induction false} CapExactly(p: Policy, m: Memory, o: Observation, c: int)
    ensures PlanFor(p, m, o).newCap == Some(c) <==>
            o.cap.Some? && (FallsTo(p, m, o, o.cap.value, c) || RisesTo(p, m, o, o.cap.value, c))
  {
    hide CountedKills, RepairReasons, Recent;
    KillsAreCounted(o.kills, o.now, p.oomWindow, m.capChangedAt);
  }

  /**
    With the program's own values: two kills in an hour since the last change cut the cap to three
    fifths, but not below 1000; six hours without one after a change give back up to five thirds.
   */
  lemma {:induction false} LiveCapChange(m: Memory, o: Observation, c: int)
    requires o.cap.Some?
    ensures var cap := o.cap.value;
            PlanFor(LIVE_POLICY, m, o).newCap == Some(c) <==>
            || (KillsSince(m, o, 3600.0) >= 2 && c < cap && 5 * (c + 1) > 3 * cap
                && (c == 1000 || (1000 <= c && 5 * c <= 3 * cap)))
            || (KillsSince(m, o, 3600.0) == 0 && m.capBaseline != 0 && cap < m.capBaseline
                && m.capChangedAt != 0.0 && o.now - m.capChangedAt > 21600.0
                && c <= m.capBaseline && 3 * c <= 5 * cap && (c == m.capBaseline || 3 * (c + 1) > 5 * cap))
  {
    hide KillsSince, PlanFor;
    CapExactly(LIVE_POLICY, m, o, c);
  }

  /** And a waiting fault is a reason from its second sighting in a row, the signals stalled after half an hour. */
  lemma {:induction false} LiveFaultWaits(m: Memory, o: Observation, r: string)
    requires Reporting(LIVE_POLICY, o)
    ensures r in RepairReasons(LIVE_POLICY, m, o) <==>
            && r in m.counts && m.counts[r] >= 1
            && (r in o.faults
                || (r == "telegram_signals_stalled" && o.mentions.Some? && m.mentions == o.mentions
                    && m.mentionsAt != 0.0 && o.now - m.mentionsAt > 1800.0))
  {
    hide RepairReasons;
    ReasonsExactly(LIVE_POLICY, m, o, r);
  }

  // ----- The signal count -----

  /** A pass that reads a number of mentions. */
  predicate Reads(p: Policy, t: Turn) {
    Reporting(p, t.seen) && t.seen.mentions.Some?
  }

  /** From pass `k` on every pass that reads a number reads this one. */
  ghost predicate SameSince(p: Policy, turns: seq<Turn>, k: int, mentions: Option<int>) {
    0 <= k < |turns| && Reads(p, turns[k]) && forall j :: k <= j < |turns| && Reads(p, turns[j]) ==> turns[j].seen.mentions == mentions
  }

  /** Before pass `k` the last pass that read a number, if there was one, read another. */
  ghost predicate OtherBefore(p: Policy, turns: seq<Turn>, k: int, mentions: Option<int>) {
    forall i :: 0 <= i < k <= |turns| && SameSince(p, turns[..k], i, turns[i].seen.mentions) ==> turns[i].seen.mentions != mentions
  }

  /**
    What is remembered of the mentions: the number last read, and the time of the first pass of
    the streak that read it.
   */
  lemma {:induction false} MentionsSince(p: Policy, turns: seq<Turn>) returns (k: int)
    ensures var m := After(p, turns);
            k < |turns|
            && if k < 0 then
              m.mentions == None && m.mentionsAt == 0.0 && forall j :: 0 <= j < |turns| ==> !Reads(p, turns[j])
            else
              && SameSince(p, turns, k, m.mentions) && OtherBefore(p, turns, k, m.mentions)
              && m.mentionsAt == turns[k].seen.now
    decreases |turns|
  {
    hide AfterPass, SameSince, OtherBefore;
    if turns == [] {
      k := -1;
    } else {
      var n := |turns| - 1;
      var before, last := turns[..n], turns[n];
      k := MentionsSince(p, before);
      MentionsAfter(p, After(p, before), last);
      if Reads(p, last) && After(p, before).mentions != last.seen.mentions {
        NewStreak(p, turns, k, After(p, before).mentions);
        k := n;
      } else if k >= 0 {
        StreakGoesOn(p, turns, k, After(p, before).mentions);
      }
    }
  }

  lemma {:induction false} MentionsAfter(p: Policy, m: Memory, t: Turn)
    ensures var m' := AfterPass(p, m, t.seen, t.succeeded);
            if Reads(p, t) && m.mentions != t.seen.mentions
            then m'.mentions == t.seen.mentions && m'.mentionsAt == t.seen.now
            else m'.mentions == m.mentions && m'.mentionsAt == m.mentionsAt
  {
    hide CapChange, Recent, RepairReasons, SeenBy, NextCounts;
  }

  lemma {:induction false} NewStreak(p: Policy, turns: seq<Turn>, k: int, mentions: Option<int>)
    requires turns != [] && Reads(p, turns[|turns| - 1]) && turns[|turns| - 1].seen.mentions != mentions
    requires k < 0 ==> forall j :: 0 <= j < |turns| - 1 ==> !Reads(p, turns[j])
    requires k >= 0 ==> SameSince(p, turns[..|turns| - 1], k, mentions)
    ensures SameSince(p, turns, |turns| - 1, turns[|turns| - 1].seen.mentions)
    ensures OtherBefore(p, turns, |turns| - 1, turns[|turns| - 1].seen.mentions)
  {
    hide Reads;
    var n := |turns| - 1;
    var before := turns[..n];
    forall i | 0 <= i < n && SameSince(p, before, i, turns[i].seen.mentions)
      ensures turns[i].seen.mentions != turns[n].seen.mentions
    {
      assert before[i] == turns[i] && Reads(p, before[i]);
      var later := if i < k then k else i;
      assert before[later].seen.mentions == before[i].seen.mentions;
    }
  }

  lemma {:induction false} StreakGoesOn(p: Policy, turns: seq<Turn>, k: int, mentions: Option<int>)
    requires turns != [] && SameSince(p, turns[..|turns| - 1], k, mentions)
    requires OtherBefore(p, turns[..|turns| - 1], k, mentions)
    requires Reads(p, turns[|turns| - 1]) ==> turns[|turns| - 1].seen.mentions == mentions
    ensures SameSince(p, turns, k, mentions) && OtherBefore(p, turns, k, mentions)
  {
    hide Reads;
    var n := |turns| - 1;
    assert turns[..n][..k] == turns[..k];
    forall j | 0 <= j < n ensures turns[..n][j] == turns[j] {}
  }

  /**
    Over any run with a clock past zero that never goes back, a pass takes the signals for stalled
    exactly when some earlier pass, longer ago than the stall time, read the number this one
    reads, and no pass since has read another.
   */
  lemma {:induction false} StallExactly(p: Policy, turns: seq<Turn>, o: Observation)
    requires ClockOk(turns) && forall i :: 0 <= i < |turns| ==> turns[i].seen.now > 0.0
    ensures Stalls(p, Before(p, turns, o), o) <==>
            o.mentions.Some? && exists k :: SameSince(p, turns, k, o.mentions) && o.now - turns[k].seen.now > p.telegramStall
  {
    hide AfterPass, After;
    var k := MentionsSince(p, turns);
    var m := After(p, turns);
    if o.mentions.Some? {
      if x :| SameSince(p, turns, x, o.mentions) && o.now - turns[x].seen.now > p.telegramStall {
        assert k >= 0;
        var later := if x < k then k else x;
        assert turns[later].seen.mentions == o.mentions == m.mentions;
        if x < k { EarlierIsNotSame(p, turns, x, k, o.mentions); }
        assert turns[k].seen.now <= turns[x].seen.now;
      }
    }
  }

  lemma {:induction false} EarlierIsNotSame(p: Policy, turns: seq<Turn>, x: int, k: int, mentions: Option<int>)
    requires 0 <= x < k < |turns| && OtherBefore(p, turns, k, mentions)
    ensures !SameSince(p, turns, x, mentions)
  {
    var before := turns[..k];
    assert forall j :: 0 <= j < k ==> before[j] == turns[j];
    if turns[x].seen.mentions == mentions { assert !SameSince(p, before, x, turns[x].seen.mentions); }
  }
}
