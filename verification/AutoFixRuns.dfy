/** What holds over any run of serial supervisor passes with a clock that never goes back. */
module AutoFixRuns {
  import opened Foundations
  import opened AutoFix
  import opened WindowLog

  /** One pass: its time, the health it read and what it recorded. */
  datatype Pass = Pass(now: real, health: Json, made: seq<Attempt>)

  function After(window: real, passes: seq<Pass>): seq<Attempt> {
    if passes == [] then []
    else
      var last := passes[|passes| - 1];
      Unexpired(After(window, passes[..|passes| - 1]), last.now, window) + last.made
  }

  /** Passes made one after the other from an empty state, by the same remedies. */
  ghost predicate PassRun(remedies: seq<Remedy>, window: real, passes: seq<Pass>) {
    passes == []
    || var before, last := passes[..|passes| - 1], passes[|passes| - 1];
       && PassRun(remedies, window, before)
       && (before != [] ==> before[|before| - 1].now <= last.now)
       && PassOk(remedies, last.health, Unexpired(After(window, before), last.now, window), last.now, last.made)
  }

  /** When a remedy succeeded, over a whole run. */
  function SuccessLog(passes: seq<Pass>, name: string): seq<real> {
    if passes == [] then [] else SuccessLog(passes[..|passes| - 1], name) + Times(passes[|passes| - 1].made, name)
  }

  /** Every remedy of this name has at most this budget and at least this cooldown. */
  predicate Limits(remedies: seq<Remedy>, name: string, budget: nat, cooldown: real) {
    forall i :: 0 <= i < |remedies| && remedies[i].name == name ==>
      remedies[i].budget <= budget && remedies[i].cooldown >= cooldown
  }

  function Gap(cooldown: real, window: real): real {
    if cooldown <= window then cooldown else window
  }

  lemma {:induction false} TimesAppend(a: seq<Attempt>, b: seq<Attempt>, name: string)
    ensures Times(a + b, name) == Times(a, name) + Times(b, name)
    decreases |b|
  {
    if b == [] {
      assert a + b == a;
    } else {
      assert (a + b)[..|a + b| - 1] == a + b[..|b| - 1];
      TimesAppend(a, b[..|b| - 1], name);
    }
  }

  /** Expiry forgets exactly the successes that are out of the window, and with them the cooldown. */
  lemma {:induction false} ExpiryPrunes(attempts: seq<Attempt>, name: string, now: real, window: real)
    ensures Times(Unexpired(attempts, now, window), name) == Recent(Times(attempts, name), now, window)
    decreases |attempts|
  {
    if attempts != [] {
      var before, last := attempts[..|attempts| - 1], attempts[|attempts| - 1];
      ExpiryPrunes(before, name, now, window);
      var kept := Unexpired(before, now, window);
      assert (kept + [last])[..|kept|] == kept;
      var times := Times(before, name);
      assert (times + [last.at])[..|times|] == times;
    }
  }

  /** A pass disturbs at most once: only its last attempt can have acted. */
  lemma {:induction false} OneActionPerPass(remedies: seq<Remedy>, i: nat, health: Json, attempts: seq<Attempt>,
                                            now: real, made: seq<Attempt>)
    requires i <= |remedies| && PassUpTo(remedies, i, health, attempts, now, made)
    ensures forall k :: 0 <= k < |made| - 1 ==> !made[k].outcome.Acted?
    ensures made != [] ==>
              exists r :: 0 <= r < i && AttemptOk(remedies[r], attempts + made[..|made| - 1], now, made[|made| - 1])
    decreases i
  {
    if i > 0 {
      if remedies[i - 1].applies(health) != Some(true) {
        OneActionPerPass(remedies, i - 1, health, attempts, now, made);
      } else {
        var before := made[..|made| - 1];
        assert forall k :: 0 <= k < |before| ==> before[k] in before && made[k] == before[k];
      }
    }
  }

  lemma {:induction false} NoSuccessNoTimes(made: seq<Attempt>, name: string)
    requires forall k :: 0 <= k < |made| ==> !made[k].outcome.Acted?
    ensures Times(made, name) == []
    decreases |made|
  {
    if made != [] { NoSuccessNoTimes(made[..|made| - 1], name); }
  }

  /** What one pass adds to a remedy's successes: nothing, or this moment, when no cooldown or budget held it. */
  lemma {:induction false} PassSuccess(remedies: seq<Remedy>, health: Json, attempts: seq<Attempt>, now: real,
                                       made: seq<Attempt>, name: string, budget: nat, cooldown: real)
    requires PassOk(remedies, health, attempts, now, made) && Limits(remedies, name, budget, cooldown)
    ensures Times(made, name) == [] || Times(made, name) == [now]
    ensures Times(made, name) == [now] ==>
              var times := Times(attempts, name);
              |times| < budget && (times != [] ==> now - Latest(times) >= cooldown)
  {
    var i: nat :| i <= |remedies| && PassEndsAt(remedies, i, health, attempts, now, made);
    OneActionPerPass(remedies, i, health, attempts, now, made);
    if made != [] {
      var before, last := made[..|made| - 1], made[|made| - 1];
      NoSuccessNoTimes(before, name);
      if ActedAs(last, name) {
        var r :| 0 <= r < i && AttemptOk(remedies[r], attempts + before, now, last);
        TimesAppend(attempts, before, name);
        assert Times(attempts, name) + [] == Times(attempts, name);
      }
    }
  }

  /** The remembered successes of a remedy are the tail of its log, and the log keeps both bounds. */
  ghost predicate LogOk(attempts: seq<Attempt>, log: seq<real>, name: string, budget: nat, gap: real, window: real, now: real) {
    Remembers(Times(attempts, name), log, window, now) && Spaced(log, gap) && Budgeted(log, budget, window)
  }

  lemma {:induction false} LatestIsLast(times: seq<real>)
    requires times != [] && Sorted(times)
    ensures Latest(times) == times[|times| - 1]
  {
    assert times[|times| - 1] in times;
    var i :| 0 <= i < |times| && times[i] == Latest(times);
  }

  /** A remedy that was let act is late enough after its last success, remembered or not. */
  lemma {:induction false} LateEnough(kept: seq<real>, log: seq<real>, cooldown: real, window: real, now: real)
    requires Remembers(kept, log, window, now) && log != []
    requires kept != [] ==> now - Latest(kept) >= cooldown
    ensures now - log[|log| - 1] >= Gap(cooldown, window)
  {
    if kept != [] {
      assert Sorted(kept);
      LatestIsLast(kept);
    }
  }

  lemma {:induction false} PassKeepsLog(remedies: seq<Remedy>, attempts: seq<Attempt>, log: seq<real>, pass: Pass,
                                        name: string, budget: nat, cooldown: real, window: real, prior: real)
    requires LogOk(attempts, log, name, budget, Gap(cooldown, window), window, prior) && prior <= pass.now
    requires Limits(remedies, name, budget, cooldown)
    requires PassOk(remedies, pass.health, Unexpired(attempts, pass.now, window), pass.now, pass.made)
    ensures LogOk(Unexpired(attempts, pass.now, window) + pass.made, log + Times(pass.made, name),
                  name, budget, Gap(cooldown, window), window, pass.now)
  {
    hide Budgeted, Gap, PassOk, Remembers, Spaced;
    var now, kept := pass.now, Unexpired(attempts, pass.now, window);
    var times := Times(kept, name);
    ExpiryPrunes(attempts, name, now, window);
    PruneRemembers(Times(attempts, name), log, window, prior, now);
    PassSuccess(remedies, pass.health, kept, now, pass.made, name, budget, cooldown);
    TimesAppend(kept, pass.made, name);
    if Times(pass.made, name) == [now] {
      RememberGrows(times, log, window, now);
      BudgetedGrows(times, log, budget, window, now);
      if log != [] { LateEnough(times, log, cooldown, window, now); }
      SpacedGrows(log, now, Gap(cooldown, window));
    } else {
      assert times + [] == times && log + [] == log;
    }
  }

  lemma {:induction false} RunKeepsLog(remedies: seq<Remedy>, window: real, passes: seq<Pass>, name: string,
                                       budget: nat, cooldown: real)
    requires PassRun(remedies, window, passes) && passes != [] && Limits(remedies, name, budget, cooldown)
    ensures LogOk(After(window, passes), SuccessLog(passes, name), name, budget, Gap(cooldown, window), window,
                  passes[|passes| - 1].now)
    decreases |passes|
  {
    hide LogOk, PassOk;
    var before, last := passes[..|passes| - 1], passes[|passes| - 1];
    var prior := if before == [] then last.now else before[|before| - 1].now;
    if before == [] {
      NothingYet(name, budget, Gap(cooldown, window), window, prior);
    } else {
      RunKeepsLog(remedies, window, before, name, budget, cooldown);
    }
    PassKeepsLog(remedies, After(window, before), SuccessLog(before, name), last, name, budget, cooldown, window, prior);
  }

  lemma {:induction false} NothingYet(name: string, budget: nat, gap: real, window: real, now: real)
    ensures LogOk([], [], name, budget, gap, window, now)
  {
  }

  /**
    The supervisor's bound. Over any run of passes with a clock that never goes back, each
    remedy's successes are at least the smaller of cooldown and window apart, because expiry also
    forgets the cooldown, and no window holds more of them than the budget.
   */
  lemma {:induction false} RemediesAreBounded(remedies: seq<Remedy>, window: real, passes: seq<Pass>, name: string,
                                              budget: nat, cooldown: real)
    requires PassRun(remedies, window, passes) && Limits(remedies, name, budget, cooldown)
    ensures var log := SuccessLog(passes, name);
            Sorted(log) && Spaced(log, Gap(cooldown, window)) && Budgeted(log, budget, window)
  {
    if passes != [] { RunKeepsLog(remedies, window, passes, name, budget, cooldown); }
  }
}
