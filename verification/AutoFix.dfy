/** The supervisor's fixed remedies: at most one acts in a pass, each within a budget and a cooldown. */
module AutoFix {
  import opened Foundations

  /** When a remedy applies (None when asking raises), and how often and how soon it may act again. */
  datatype Remedy = Remedy(name: string, applies: Json -> Option<bool>, budget: nat, cooldown: real)

  datatype Outcome = Acted | Cooling | BudgetSpent | ActFailed

  datatype Attempt = Attempt(remedy: string, at: real, outcome: Outcome)

  function Unexpired(attempts: seq<Attempt>, now: real, window: real): seq<Attempt> {
    if attempts == [] then []
    else
      var before, last := Unexpired(attempts[..|attempts| - 1], now, window), attempts[|attempts| - 1];
      if now - last.at <= window then before + [last] else before
  }

  predicate ActedAs(a: Attempt, name: string) {
    a.remedy == name && a.outcome.Acted?
  }

  /** When a remedy acted. */
  function Times(attempts: seq<Attempt>, name: string): seq<real> {
    if attempts == [] then []
    else
      var before, last := Times(attempts[..|attempts| - 1], name), attempts[|attempts| - 1];
      if ActedAs(last, name) then before + [last.at] else before
  }

  function Latest(times: seq<real>): (latest: real)
    requires times != []
    ensures latest in times && forall t :: t in times ==> t <= latest
  {
    var last := times[|times| - 1];
    if |times| == 1 then last
    else
      var before := Latest(times[..|times| - 1]);
      assert times == times[..|times| - 1] + [last];
      if before <= last then last else before
  }

  /** What is decided before acting; None lets the remedy act. */
  function Held(r: Remedy, attempts: seq<Attempt>, now: real): Option<Outcome> {
    var times := Times(attempts, r.name);
    if times != [] && now - Latest(times) < r.cooldown then Some(Cooling)
    else if |times| >= r.budget then Some(BudgetSpent)
    else None
  }

  /** An attempt a remedy may record: held back as decided, or acted, well or not. */
  predicate AttemptOk(r: Remedy, attempts: seq<Attempt>, now: real, a: Attempt) {
    a.remedy == r.name && a.at == now
    && match Held(r, attempts, now)
       case Some(outcome) => a.outcome == outcome
       case None => a.outcome == Acted || a.outcome == ActFailed
  }

  /** What the first `i` remedies recorded, none of them having acted before the last. */
  predicate PassUpTo(remedies: seq<Remedy>, i: nat, health: Json, attempts: seq<Attempt>, now: real, made: seq<Attempt>)
    requires i <= |remedies|
  {
    if i == 0 then made == []
    else if remedies[i - 1].applies(health) != Some(true) then PassUpTo(remedies, i - 1, health, attempts, now, made)
    else
      made != []
      && var before := made[..|made| - 1];
         && PassUpTo(remedies, i - 1, health, attempts, now, before)
         && (forall a :: a in before ==> !a.outcome.Acted?)
         && AttemptOk(remedies[i - 1], attempts + before, now, made[|made| - 1])
  }

  /** One whole pass: every remedy in turn, until one has acted. */
  ghost predicate PassOk(remedies: seq<Remedy>, health: Json, attempts: seq<Attempt>, now: real, made: seq<Attempt>) {
    exists i: nat :: i <= |remedies| && PassEndsAt(remedies, i, health, attempts, now, made)
  }

  predicate PassEndsAt(remedies: seq<Remedy>, i: nat, health: Json, attempts: seq<Attempt>, now: real, made: seq<Attempt>)
    requires i <= |remedies|
  {
    PassUpTo(remedies, i, health, attempts, now, made)
    && (i == |remedies| || (made != [] && made[|made| - 1].outcome.Acted?))
  }

  lemma {:induction false} PassStarts(remedies: seq<Remedy>, health: Json, attempts: seq<Attempt>, now: real)
    ensures PassUpTo(remedies, 0, health, attempts, now, [])
  {
  }

  /** A remedy that does not apply records nothing. */
  lemma {:induction false} PassSkips(remedies: seq<Remedy>, i: nat, health: Json, attempts: seq<Attempt>, now: real, made: seq<Attempt>)
    requires i < |remedies| && PassUpTo(remedies, i, health, attempts, now, made)
    requires remedies[i].applies(health) != Some(true)
    ensures PassUpTo(remedies, i + 1, health, attempts, now, made)
  {
  }

  /** One that does records its attempt, if none before it has acted. */
  lemma {:induction false} PassGrows(remedies: seq<Remedy>, i: nat, health: Json, attempts: seq<Attempt>, now: real,
                                     made: seq<Attempt>, a: Attempt)
    requires i < |remedies| && PassUpTo(remedies, i, health, attempts, now, made)
    requires remedies[i].applies(health) == Some(true) && AttemptOk(remedies[i], attempts + made, now, a)
    requires forall x :: x in made ==> !x.outcome.Acted?
    ensures PassUpTo(remedies, i + 1, health, attempts, now, made + [a])
  {
    hide AttemptOk;
    assert (made + [a])[..|made + [a]| - 1] == made;
  }

  /** No message twice. */
  predicate Unrepeated(messages: seq<(string, nat)>) {
    forall i, j :: 0 <= i < j < |messages| ==> messages[i] != messages[j]
  }

  class AutoFixer {
    const window: real
    var remedies: seq<Remedy>
    var attempts: seq<Attempt>
    var escalations: seq<(string, nat)>

    constructor (window: real)
      ensures this.window == window && remedies == [] && attempts == [] && escalations == []
    {
      this.window := window;
      remedies, attempts, escalations := [], [], [];
    }

    method Register(r: Remedy)
      modifies this`remedies
      ensures remedies == old(remedies) + [r]
    {
      remedies := remedies + [r];
    }

    method Expire(now: real)
      modifies this`attempts
      ensures attempts == Unexpired(old(attempts), now, window)
    {
      var kept: seq<Attempt> := [];
      var i := 0;
      while i < |attempts|
        invariant 0 <= i <= |attempts| && attempts == old(attempts)
        invariant kept == Unexpired(attempts[..i], now, window)
      {
        assert attempts[..i + 1][..i] == attempts[..i];
        if now - attempts[i].at <= window { kept := kept + [attempts[i]]; }
        i := i + 1;
      }
      assert attempts[..i] == attempts;
      attempts := kept;
    }

    /** Asks for one remedy; a spent budget is escalated once for each count. */
    method TryRemedy(r: Remedy, now: real) returns (a: Attempt)
      modifies this`escalations
      ensures AttemptOk(r, attempts, now, a)
      ensures a.outcome.BudgetSpent? ==>
                var message := (r.name, |Times(attempts, r.name)|);
                escalations == if message in old(escalations) then old(escalations) else old(escalations) + [message]
      ensures !a.outcome.BudgetSpent? ==> escalations == old(escalations)
      ensures Unrepeated(old(escalations)) ==> Unrepeated(escalations)
    {
      var times := Times(attempts, r.name);
      if times != [] && now - Latest(times) < r.cooldown { return Attempt(r.name, now, Cooling); }
      if |times| >= r.budget {
        if (r.name, |times|) !in escalations { escalations := escalations + [(r.name, |times|)]; }
        return Attempt(r.name, now, BudgetSpent);
      }
      if * { return Attempt(r.name, now, ActFailed); }
      return Attempt(r.name, now, Acted);
    }

    /** One pass over the remedies, in the order they were registered. */
    method Run(health: Json, now: real) returns (made: seq<Attempt>)
      modifies this`attempts, this`escalations
      ensures attempts == Unexpired(old(attempts), now, window) + made
      ensures PassOk(remedies, health, Unexpired(old(attempts), now, window), now, made)
      ensures old(escalations) <= escalations && (Unrepeated(old(escalations)) ==> Unrepeated(escalations))
    {
      hide AttemptOk, PassUpTo, Unrepeated;
      Expire(now);
      ghost var kept := attempts;
      made := [];
      assert kept + [] == kept;
      PassStarts(remedies, health, kept, now);
      var i := 0;
      while i < |remedies|
        invariant 0 <= i <= |remedies| && attempts == kept + made && old(escalations) <= escalations
        invariant Unrepeated(old(escalations)) ==> Unrepeated(escalations)
        invariant PassUpTo(remedies, i, health, kept, now, made)
        invariant forall a :: a in made ==> !a.outcome.Acted?
      {
        if remedies[i].applies(health) != Some(true) {
          PassSkips(remedies, i, health, kept, now, made);
          i := i + 1;
          continue;
        }
        var a := TryRemedy(remedies[i], now);
        PassGrows(remedies, i, health, kept, now, made, a);
        assert kept + (made + [a]) == (kept + made) + [a];
        made := made + [a];
        attempts := attempts + [a];
        i := i + 1;
        if a.outcome.Acted? {
          assert PassEndsAt(remedies, i, health, kept, now, made);
          return;
        }
      }
      assert PassEndsAt(remedies, i, health, kept, now, made);
    }
  }
}
