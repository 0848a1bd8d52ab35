/**
  The desk watchdog's decision loop: a restart budget with a cooldown, faults that must persist
  before they are repaired, and a token cap that shrinks on repeated kills and grows back.
 */
module Watchdog {
  import opened Foundations
  import opened WindowLog

  datatype Policy = Policy(
    staleSeconds: real,
    cooldown: real,
    window: real,
    maxRestarts: nat,
    persistentRuns: nat,
    telegramStall: real,
    killsBeforeShrink: nat,
    oomWindow: real,
    capFloor: nat,
    recovery: real)

  /** The values the program runs with. */
  const LIVE_POLICY := Policy(180.0, 300.0, 3600.0, 3, 2, 1800.0, 2, 3600.0, 1000, 21600.0)

  /** What is remembered from one pass to the next. */
  datatype Memory = Memory(
    counts: map<string, nat>,
    restartTimes: seq<real>,
    lastRestart: real,
    mentions: Option<int>,
    mentionsAt: real,
    capChangedAt: real,
    capBaseline: int)

  /** What one pass reads: `faults` are the repairable ones in a fresh readiness report. */
  datatype Observation = Observation(
    now: real,
    serviceActive: bool,
    readinessAge: Option<real>,
    faults: seq<string>,
    mentions: Option<int>,
    kills: seq<real>,
    cap: Option<int>)

  datatype Plan = Plan(restart: bool, reasons: seq<string>, suppressed: bool, newCap: Option<int>)

  // ----- The decision as a function -----

  predicate Fresh(p: Policy, o: Observation) {
    o.serviceActive && o.readinessAge.Some? && o.readinessAge.value <= p.staleSeconds
  }

  function Immediate(p: Policy, o: Observation): seq<string> {
    if !o.serviceActive then ["desk_service_inactive"]
    else if o.readinessAge.None? then ["readiness_missing"]
    else if o.readinessAge.value > p.staleSeconds then ["readiness_stale"]
    else []
  }

  predicate TelegramStalled(p: Policy, m: Memory, o: Observation) {
    o.mentions.Some? && m.mentions == o.mentions && m.mentionsAt != 0.0 && o.now - m.mentionsAt > p.telegramStall
  }

  function Persistent(p: Policy, m: Memory, o: Observation): seq<string> {
    if !Fresh(p, o) then []
    else o.faults + if TelegramStalled(p, m, o) then ["telegram_signals_stalled"] else []
  }

  function Members(s: seq<string>): set<string> {
    set r | r in s
  }

  function SeenBy(p: Policy, m: Memory, o: Observation): set<string> {
    Members(Immediate(p, o)) + Members(Persistent(p, m, o))
  }

  function CountOf(counts: map<string, nat>, r: string): nat {
    if r in counts then counts[r] else 0
  }

  /** Consecutive sightings: one more for what is seen, none for what is not. */
  function NextCounts(counts: map<string, nat>, seen: set<string>): map<string, nat> {
    map r | r in counts.Keys + seen :: if r in seen then CountOf(counts, r) + 1 else 0
  }

  function Persisting(reasons: seq<string>, counts: map<string, nat>, runs: nat): (kept: seq<string>)
    ensures forall r :: r in kept <==> r in reasons && CountOf(counts, r) >= runs
  {
    if reasons == [] then []
    else
      var before, last := Persisting(reasons[..|reasons| - 1], counts, runs), reasons[|reasons| - 1];
      if CountOf(counts, last) >= runs then before + [last] else before
  }

  function RepairReasons(p: Policy, m: Memory, o: Observation): seq<string> {
    Immediate(p, o) + Persisting(Persistent(p, m, o), NextCounts(m.counts, SeenBy(p, m, o)), p.persistentRuns)
  }

  function MayRestart(p: Policy, m: Memory, now: real): bool {
    now - m.lastRestart >= p.cooldown && |Recent(m.restartTimes, now, p.window)| < p.maxRestarts
  }

  /** The kills that count: inside the window, and later than the last change of the cap. */
  function CountedKills(kills: seq<real>, now: real, window: real, changedAt: real): (kept: seq<real>)
    ensures forall k :: k in kept <==> k in kills && now - k <= window && k > changedAt
  {
    if kills == [] then []
    else
      var before, last := CountedKills(kills[..|kills| - 1], now, window, changedAt), kills[|kills| - 1];
      if now - last <= window && last > changedAt then before + [last] else before
  }

  /** Three fifths, rounded down, but not below the floor. */
  function Shrunk(p: Policy, cap: int): int {
    if cap * 3 / 5 < p.capFloor then p.capFloor else cap * 3 / 5
  }

  function Regrown(cap: int, baseline: int): int {
    Min(baseline, cap * 5 / 3)
  }

  /** The change of the cap a pass asks for. */
  function CapChange(p: Policy, m: Memory, o: Observation): Option<int> {
    match o.cap
    case None => None
    case Some(cap) =>
      var kills := |CountedKills(o.kills, o.now, p.oomWindow, m.capChangedAt)|;
      if kills >= p.killsBeforeShrink then (if Shrunk(p, cap) < cap then Some(Shrunk(p, cap)) else None)
      else if kills == 0 && m.capBaseline != 0 && cap < m.capBaseline && m.capChangedAt != 0.0
              && o.now - m.capChangedAt > p.recovery then Some(Regrown(cap, m.capBaseline))
      else None
  }

  function PlanFor(p: Policy, m: Memory, o: Observation): Plan {
    var reasons := RepairReasons(p, m, o);
    var restart := reasons != [] && MayRestart(p, m, o.now);
    Plan(restart, if restart then reasons else [], reasons != [] && !restart, CapChange(p, m, o))
  }

  /** What the decision itself remembers; a restart is only remembered once it has succeeded. */
  function Decided(p: Policy, m: Memory, o: Observation): Memory {
    var noted := Fresh(p, o) && o.mentions.Some? && m.mentions != o.mentions;
    Memory(
      NextCounts(m.counts, SeenBy(p, m, o)),
      Recent(m.restartTimes, o.now, p.window),
      m.lastRestart,
      if noted then o.mentions else m.mentions,
      if noted then o.now else m.mentionsAt,
      if CapChange(p, m, o).Some? then o.now else m.capChangedAt,
      m.capBaseline)
  }

  /** The first cap ever read is the baseline. */
  function WithBaseline(m: Memory, o: Observation): Memory {
    if o.cap.Some? && m.capBaseline == 0 then m.(capBaseline := o.cap.value) else m
  }

  /** One whole pass; `succeeded` when the restart command, if there was one, did. */
  function AfterPass(p: Policy, m: Memory, o: Observation, succeeded: bool): Memory {
    var b := WithBaseline(m, o);
    var d := Decided(p, b, o);
    if PlanFor(p, b, o).restart && succeeded
    then d.(restartTimes := d.restartTimes + [o.now], lastRestart := o.now) else d
  }

  // ----- The decision as the program makes it -----

  class Watch {
    var counts: map<string, nat>
    var restartTimes: seq<real>
    var lastRestart: real
    var mentions: Option<int>
    var mentionsAt: real
    var capChangedAt: real
    var capBaseline: int

    constructor ()
      ensures View() == Memory(map[], [], 0.0, None, 0.0, 0.0, 0)
    {
      counts, restartTimes, lastRestart, mentions := map[], [], 0.0, None;
      mentionsAt, capChangedAt, capBaseline := 0.0, 0.0, 0;
    }

    ghost function View(): Memory
      reads this
    {
      Memory(counts, restartTimes, lastRestart, mentions, mentionsAt, capChangedAt, capBaseline)
    }

    /** The kills that count, by a loop over the log. */
    method RecentKills(p: Policy, o: Observation) returns (kills: seq<real>)
      ensures kills == CountedKills(o.kills, o.now, p.oomWindow, capChangedAt)
    {
      kills := [];
      var i := 0;
      while i < |o.kills|
        invariant 0 <= i <= |o.kills|
        invariant kills == CountedKills(o.kills[..i], o.now, p.oomWindow, capChangedAt)
      {
        assert o.kills[..i + 1][..i] == o.kills[..i];
        if o.now - o.kills[i] <= p.oomWindow && o.kills[i] > capChangedAt { kills := kills + [o.kills[i]]; }
        i := i + 1;
      }
      assert o.kills[..i] == o.kills;
    }

    method DecideCap(p: Policy, o: Observation) returns (newCap: Option<int>)
      modifies this`capChangedAt
      ensures newCap == CapChange(p, old(View()), o)
      ensures capChangedAt == if newCap.Some? then o.now else old(capChangedAt)
    {
      newCap := None;
      if o.cap.Some? {
        var cap := o.cap.value;
        var recent := RecentKills(p, o);
        if |recent| >= p.killsBeforeShrink {
          var shrunk := if cap * 3 / 5 < p.capFloor then p.capFloor else cap * 3 / 5;
          if shrunk < cap {
            newCap := Some(shrunk);
            capChangedAt := o.now;
          }
        } else if recent == [] {
          if capBaseline != 0 && cap < capBaseline && capChangedAt != 0.0 && o.now - capChangedAt > p.recovery {
            newCap := Some(Min(capBaseline, cap * 5 / 3));
            capChangedAt := o.now;
          }
        }
      }
    }

    method ObserveFaults(p: Policy, o: Observation) returns (immediate: seq<string>, persistent: seq<string>)
      modifies this`mentions, this`mentionsAt
      ensures immediate == Immediate(p, o) && persistent == Persistent(p, old(View()), o)
      ensures var noted := Fresh(p, o) && o.mentions.Some? && old(mentions) != o.mentions;
              mentions == (if noted then o.mentions else old(mentions))
              && mentionsAt == (if noted then o.now else old(mentionsAt))
    {
      immediate, persistent := [], [];
      if !o.serviceActive {
        immediate := ["desk_service_inactive"];
      } else if o.readinessAge.None? {
        immediate := ["readiness_missing"];
      } else if o.readinessAge.value > p.staleSeconds {
        immediate := ["readiness_stale"];
      } else {
        persistent := o.faults;
        if o.mentions.Some? {
          if mentions != o.mentions {
            mentions, mentionsAt := o.mentions, o.now;
          } else if mentionsAt != 0.0 && o.now - mentionsAt > p.telegramStall {
            persistent := persistent + ["telegram_signals_stalled"];
          }
        }
      }
      assert o.faults + [] == o.faults;
    }

    /** Drops the restarts that are out of the window. */
    method PruneRestarts(p: Policy, now: real)
      modifies this`restartTimes
      ensures restartTimes == Recent(old(restartTimes), now, p.window)
    {
      var kept: seq<real> := [];
      var i := 0;
      while i < |restartTimes|
        invariant 0 <= i <= |restartTimes| && restartTimes == old(restartTimes)
        invariant kept == Recent(restartTimes[..i], now, p.window)
      {
        assert restartTimes[..i + 1][..i] == restartTimes[..i];
        if now - restartTimes[i] <= p.window { kept := kept + [restartTimes[i]]; }
        i := i + 1;
      }
      assert restartTimes[..i] == restartTimes;
      restartTimes := kept;
    }

    method Decide(p: Policy, o: Observation) returns (plan: Plan)
      modifies this
      ensures plan == PlanFor(p, old(View()), o) && View() == Decided(p, old(View()), o)
    {
      hide CapChange, CountedKills, Immediate, NextCounts, Persisting, Recent;
      ghost var before := View();
      var newCap := DecideCap(p, o);
      assert Persistent(p, View(), o) == Persistent(p, before, o);
      var immediate, persistent := ObserveFaults(p, o);
      var seen := Members(immediate) + Members(persistent);
      counts := NextCounts(counts, seen);
      var reasons := immediate + Persisting(persistent, counts, p.persistentRuns);
      PruneRestarts(p, o.now);
      var cooldownOk := o.now - lastRestart >= p.cooldown;
      var budgetOk := |restartTimes| < p.maxRestarts;
      var restart := reasons != [] && cooldownOk && budgetOk;
      return Plan(restart, if restart then reasons else [], reasons != [] && !restart, newCap);
    }

    /** One pass of the program: the baseline, the decision and the restart. */
    method Pass(p: Policy, o: Observation) returns (plan: Plan, succeeded: bool)
      modifies this
      ensures plan == PlanFor(p, WithBaseline(old(View()), o), o)
      ensures View() == AfterPass(p, old(View()), o, succeeded)
      ensures succeeded ==> plan.restart
    {
      if o.cap.Some? && capBaseline == 0 { capBaseline := o.cap.value; }
      plan := Decide(p, o);
      succeeded := false;
      if plan.restart {
        if * {
          succeeded := true;
          restartTimes := restartTimes + [o.now];
          lastRestart := o.now;
        }
      }
    }
  }
}
