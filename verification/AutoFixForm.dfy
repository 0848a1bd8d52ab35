/** A pass of the supervisor by its outcome: which remedies were asked, in what order, and what came of each. */
module AutoFixForm {
  import opened Foundations
  import opened AutoFix

  /** The earlier success number `j` of the remedy of this name. */
  predicate Succeeded(attempts: seq<Attempt>, name: string, j: nat) {
    j < |attempts| && attempts[j].remedy == name && attempts[j].outcome == Acted
  }

  function Successes(attempts: seq<Attempt>, name: string): set<nat> {
    set j: nat | j < |attempts| && Succeeded(attempts, name, j)
  }

  /** Some success lies less than the cooldown back. */
  ghost predicate TooSoon(r: Remedy, attempts: seq<Attempt>, now: real) {
    exists j: nat :: Succeeded(attempts, r.name, j) && now - attempts[j].at < r.cooldown
  }

  /** What may come of asking for a remedy that applies. */
  ghost predicate Deserved(r: Remedy, attempts: seq<Attempt>, now: real, a: Attempt) {
    && a.remedy == r.name && a.at == now
    && (a.outcome == Cooling <==> TooSoon(r, attempts, now))
    && (a.outcome == BudgetSpent <==> !TooSoon(r, attempts, now) && |Successes(attempts, r.name)| >= r.budget)
  }

  lemma {:induction false} TimesCountSuccesses(attempts: seq<Attempt>, name: string)
    ensures |Times(attempts, name)| == |Successes(attempts, name)|
    decreases |attempts|
  {
    if attempts != [] {
      var n := |attempts| - 1;
      var before := attempts[..n];
      TimesCountSuccesses(before, name);
      forall j: nat ensures Succeeded(before, name, j) <==> j < n && Succeeded(attempts, name, j) {}
      assert Successes(attempts, name)
          == if Succeeded(attempts, name, n) then Successes(before, name) + {n} else Successes(before, name);
    }
  }

  lemma {:induction false} SuccessHasTime(attempts: seq<Attempt>, name: string, j: nat)
    requires Succeeded(attempts, name, j)
    ensures attempts[j].at in Times(attempts, name)
    decreases |attempts|
  {
    if j < |attempts| - 1 { SuccessHasTime(attempts[..|attempts| - 1], name, j); }
  }

  lemma {:induction false} TimeHasSuccess(attempts: seq<Attempt>, name: string, t: real) returns (j: nat)
    requires t in Times(attempts, name)
    ensures Succeeded(attempts, name, j) && attempts[j].at == t
    decreases |attempts|
  {
    var n := |attempts| - 1;
    if t in Times(attempts[..n], name) { j := TimeHasSuccess(attempts[..n], name, t); } else { j := n; }
  }

  /** A remedy is held back exactly by its cooldown or its budget, and acts otherwise. */
  lemma {:induction false} AttemptExactly(r: Remedy, attempts: seq<Attempt>, now: real, a: Attempt)
    ensures AttemptOk(r, attempts, now, a) <==> Deserved(r, attempts, now, a)
  {
    hide Times, Successes;
    TimesCountSuccesses(attempts, r.name);
    var times := Times(attempts, r.name);
    if TooSoon(r, attempts, now) {
      var j: nat :| Succeeded(attempts, r.name, j) && now - attempts[j].at < r.cooldown;
      SuccessHasTime(attempts, r.name, j);
      assert attempts[j].at <= Latest(times);
    }
    if times != [] && now - Latest(times) < r.cooldown {
      var j := TimeHasSuccess(attempts, r.name, Latest(times));
      assert TooSoon(r, attempts, now);
    }
  }

  /** Expiry keeps an attempt exactly when it is inside the window, whatever is before and after it, and keeps their order. */
  lemma {:induction false} ExpiryFilters(before: seq<Attempt>, x: Attempt, after: seq<Attempt>, now: real, window: real)
    ensures Unexpired([], now, window) == []
    ensures Unexpired(before + [x] + after, now, window)
         == Unexpired(before, now, window) + (if now - x.at <= window then [x] else []) + Unexpired(after, now, window)
    decreases |after|
  {
    var all := before + [x] + after;
    if after == [] {
      assert all == before + [x] && all[..|all| - 1] == before;
    } else {
      var n := |after| - 1;
      assert all[..|all| - 1] == before + [x] + after[..n];
      ExpiryFilters(before, x, after[..n], now, window);
    }
  }

  // ----- One pass -----

  /** The remedies asked, by number: all that apply, in order, up to some point. */
  ghost predicate AsksInOrder(remedies: seq<Remedy>, health: Json, asked: seq<nat>, end: nat) {
    && end <= |remedies|
    && (forall j :: 0 <= j < |asked| ==> asked[j] < end && remedies[asked[j]].applies(health) == Some(true))
    && (forall j, k :: 0 <= j < k < |asked| ==> asked[j] < asked[k])
    && (forall i: nat :: i < end && remedies[i].applies(health) == Some(true) ==> i in asked)
  }

  /** One attempt for each remedy asked, judged by what was remembered before the pass; only the last may have acted. */
  ghost predicate Answers(remedies: seq<Remedy>, attempts: seq<Attempt>, now: real, asked: seq<nat>, made: seq<Attempt>) {
    && |made| == |asked|
    && (forall j :: 0 <= j < |made| ==> asked[j] < |remedies| && Deserved(remedies[asked[j]], attempts, now, made[j]))
    && (forall j :: 0 <= j < |made| - 1 ==> made[j].outcome != Acted)
  }

  /** The pass stops after the first remedy that acted, or after all of them. */
  ghost predicate IsPass(remedies: seq<Remedy>, health: Json, attempts: seq<Attempt>, now: real, made: seq<Attempt>,
                         asked: seq<nat>, end: nat)
  {
    && AsksInOrder(remedies, health, asked, end) && Answers(remedies, attempts, now, asked, made)
    && (end == |remedies| || (made != [] && made[|made| - 1].outcome == Acted && end == asked[|asked| - 1] + 1))
  }

  /** Attempts that did not act change nothing for the remedies after them. */
  lemma {:induction false} IdleAttempts(r: Remedy, attempts: seq<Attempt>, idle: seq<Attempt>, now: real, a: Attempt)
    requires forall x :: x in idle ==> x.outcome != Acted
    ensures Deserved(r, attempts + idle, now, a) <==> Deserved(r, attempts, now, a)
  {
    var all := attempts + idle;
    forall j: nat ensures Succeeded(all, r.name, j) <==> Succeeded(attempts, r.name, j) {
      if |attempts| <= j < |all| { assert all[j] == idle[j - |attempts|] && all[j] in idle; }
    }
    assert Successes(all, r.name) == Successes(attempts, r.name);
    if TooSoon(r, attempts, now) {
      var j: nat :| Succeeded(attempts, r.name, j) && now - attempts[j].at < r.cooldown;
      assert Succeeded(all, r.name, j) && now - all[j].at < r.cooldown;
    }
    if TooSoon(r, all, now) {
      var j: nat :| Succeeded(all, r.name, j) && now - all[j].at < r.cooldown;
      assert Succeeded(attempts, r.name, j) && now - attempts[j].at < r.cooldown;
    }
  }

  /** What the loop has recorded after `i` remedies is an answer to those of them that apply. */
  lemma {:induction false} PassAsks(remedies: seq<Remedy>, i: nat, health: Json, attempts: seq<Attempt>, now: real,
                                    made: seq<Attempt>) returns (asked: seq<nat>)
    requires i <= |remedies| && PassUpTo(remedies, i, health, attempts, now, made)
    ensures AsksInOrder(remedies, health, asked, i) && Answers(remedies, attempts, now, asked, made)
    decreases i
  {
    hide AttemptOk, Deserved;
    if i == 0 {
      asked := [];
    } else if remedies[i - 1].applies(health) != Some(true) {
      asked := PassAsks(remedies, i - 1, health, attempts, now, made);
    } else {
      var m := |made| - 1;
      var before := made[..m];
      var some := PassAsks(remedies, i - 1, health, attempts, now, before);
      asked := some + [i - 1];
      AttemptExactly(remedies[i - 1], attempts + before, now, made[m]);
      IdleAttempts(remedies[i - 1], attempts, before, now, made[m]);
      forall j | 0 <= j < m ensures made[j].outcome != Acted { assert made[j] == before[j] && before[j] in before; }
      forall x: nat | x < i && remedies[x].applies(health) == Some(true) ensures x in asked {
        if x < i - 1 { assert x in some; } else { assert asked[m] == x; }
      }
    }
  }

  lemma {:induction false} AskedBefore(remedies: seq<Remedy>, health: Json, asked: seq<nat>, end: nat)
    requires AsksInOrder(remedies, health, asked, end) && end > 0 && remedies[end - 1].applies(health) == Some(true)
    ensures asked != [] && asked[|asked| - 1] == end - 1
    ensures AsksInOrder(remedies, health, asked[..|asked| - 1], end - 1)
  {
    assert end - 1 in asked;
    var last :| 0 <= last < |asked| && asked[last] == end - 1;
    var m := |asked| - 1;
    assert asked[last] <= asked[m] < end;
    forall i: nat | i < end - 1 && remedies[i].applies(health) == Some(true) ensures i in asked[..m] {
      var j :| 0 <= j < |asked| && asked[j] == i;
      assert asked[..m][j] == i;
    }
  }

  lemma {:induction false} SkippedBefore(remedies: seq<Remedy>, health: Json, asked: seq<nat>, end: nat)
    requires AsksInOrder(remedies, health, asked, end) && end > 0 && remedies[end - 1].applies(health) != Some(true)
    ensures AsksInOrder(remedies, health, asked, end - 1)
  {
  }

  lemma {:induction false} AnswersBefore(remedies: seq<Remedy>, attempts: seq<Attempt>, now: real, asked: seq<nat>, made: seq<Attempt>)
    requires Answers(remedies, attempts, now, asked, made) && made != []
    ensures Answers(remedies, attempts, now, asked[..|made| - 1], made[..|made| - 1])
    ensures forall x :: x in made[..|made| - 1] ==> x.outcome != Acted
  {
    hide Deserved;
  }

  /** And every answer to those of the first `i` that apply may be recorded. */
  lemma {:induction false} AskedPasses(remedies: seq<Remedy>, i: nat, health: Json, attempts: seq<Attempt>, now: real,
                                       made: seq<Attempt>, asked: seq<nat>)
    requires AsksInOrder(remedies, health, asked, i) && Answers(remedies, attempts, now, asked, made)
    ensures i <= |remedies| && PassUpTo(remedies, i, health, attempts, now, made)
    decreases i
  {
    hide AttemptOk, Deserved, Successes;
    if i > 0 {
      if remedies[i - 1].applies(health) != Some(true) {
        SkippedBefore(remedies, health, asked, i);
        AskedPasses(remedies, i - 1, health, attempts, now, made, asked);
      } else {
        AskedBefore(remedies, health, asked, i);
        AnswersBefore(remedies, attempts, now, asked, made);
        var m := |asked| - 1;
        AskedPasses(remedies, i - 1, health, attempts, now, made[..m], asked[..m]);
        AttemptExactly(remedies[i - 1], attempts + made[..m], now, made[m]);
        IdleAttempts(remedies[i - 1], attempts, made[..m], now, made[m]);
      }
    }
  }

  /**
    What a pass records, exactly: one attempt for each remedy that applies, in the order they were
    registered, up to the first that acted or to the end; a remedy is cooling when a success of its
    own lies less than its cooldown back, its budget is spent when it has that many, and it acts
    otherwise, well or not.
   */
  lemma {:induction false} PassExactly(remedies: seq<Remedy>, health: Json, attempts: seq<Attempt>, now: real, made: seq<Attempt>)
    ensures PassOk(remedies, health, attempts, now, made)
       <==> exists asked: seq<nat>, end: nat :: IsPass(remedies, health, attempts, now, made, asked, end)
  {
    hide PassUpTo, AsksInOrder;
    if PassOk(remedies, health, attempts, now, made) {
      var i: nat :| i <= |remedies| && PassEndsAt(remedies, i, health, attempts, now, made);
      var asked := PassAsks(remedies, i, health, attempts, now, made);
      var end := if made != [] && made[|made| - 1].outcome == Acted then asked[|asked| - 1] + 1 else |remedies|;
      AsksUpTo(remedies, health, asked, i, end);
      assert IsPass(remedies, health, attempts, now, made, asked, end);
    }
    if asked: seq<nat>, end: nat :| IsPass(remedies, health, attempts, now, made, asked, end) {
      AskedPasses(remedies, end, health, attempts, now, made, asked);
      assert PassEndsAt(remedies, end, health, attempts, now, made);
    }
  }

  /** Nothing that applies lies between the last remedy asked and where the loop ended. */
  lemma {:induction false} AsksUpTo(remedies: seq<Remedy>, health: Json, asked: seq<nat>, i: nat, end: nat)
    requires AsksInOrder(remedies, health, asked, i) && (end == i || (asked != [] && end == asked[|asked| - 1] + 1))
    ensures AsksInOrder(remedies, health, asked, end)
  {
  }
}
