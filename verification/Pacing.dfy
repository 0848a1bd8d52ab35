/** Rate-bounded charging of logical bytes under a deadline and admission gates. */
module Pacing {

  /** How late a charge may return ahead of its rate, in seconds. */
  const SLACK: real := 0.000000001

  const SLICE: real := 0.1

  /** The pace a total must keep: it may not run ahead of the elapsed time by more than the slack. */
  predicate Paced(charged: nat, rate: nat, elapsed: real)
    requires rate > 0
  {
    charged as real <= rate as real * (elapsed + SLACK)
  }

  /**
    A pacer and the clock it watches. `elapsed` is the time since the start when the clock was
    last read; the clock never runs backwards, and a sleep lasts at least as long as asked.
   */
  class Pacer {
    const rate: nat
    const limit: real
    const quiet: bool
    var charged: nat
    var slept: real
    var elapsed: real

    constructor (rate: nat, limit: real, quiet: bool)
      requires rate > 0
      ensures this.rate == rate && this.limit == limit && this.quiet == quiet
      ensures charged == 0 && slept == 0.0 && elapsed == 0.0
    {
      this.rate := rate;
      this.limit := limit;
      this.quiet := quiet;
      charged := 0;
      slept := 0.0;
      elapsed := 0.0;
    }

    method ReadClock()
      modifies this`elapsed
      ensures elapsed >= old(elapsed)
    {
      var passed: real :| passed >= 0.0;
      elapsed := elapsed + passed;
    }

    method Sleep(portion: real)
      requires portion >= 0.0
      modifies this`elapsed
      ensures elapsed >= old(elapsed) + portion
    {
      var late: real :| late >= 0.0;
      elapsed := elapsed + portion + late;
    }

    /** Deadline, admission and disk reserve; for a quiet pacer none of them fires, the deadline included. */
    method Guard() returns (ok: bool)
      modifies this`elapsed
      ensures elapsed >= old(elapsed)
      ensures ok && !quiet ==> elapsed < limit
      ensures quiet ==> ok
    {
      ReadClock();
      if quiet { return true; }
      if elapsed >= limit { return false; }
      if * { return false; }
      return true;
    }

    /**
      Adds the amount, then waits in slices until the total is on pace. A normal return means the
      whole total so far is on pace; a refused one has still counted the amount.
     */
    method Charge(amount: nat) returns (ok: bool)
      requires rate > 0
      modifies this
      ensures charged == old(charged) + amount
      ensures elapsed >= old(elapsed) && slept >= old(slept)
      ensures slept - old(slept) <= elapsed - old(elapsed)
      ensures ok ==> Paced(charged, rate, elapsed) && (!quiet ==> elapsed < limit)
      ensures quiet ==> ok
    {
      charged := charged + amount;
      ghost var due := charged as real / rate as real;
      ReadClock();
      var wait := charged as real / rate as real - elapsed;
      while wait > SLACK
        invariant charged == old(charged) + amount
        invariant wait == due - elapsed
        invariant elapsed >= old(elapsed) && slept >= old(slept)
        invariant slept - old(slept) <= elapsed - old(elapsed)
        decreases if wait > 0.0 then (wait * 10.0).Floor + 1 else 0
      {
        var admitted := Guard();
        if !admitted { return false; }
        var portion := if wait < SLICE then wait else SLICE;
        ghost var before := wait;
        Sleep(portion);
        slept := slept + portion;
        wait := charged as real / rate as real - elapsed;
        FewerSlices(before, wait);
      }
      OnPace(charged, rate, elapsed);
      ok := Guard();
      if ok { OnPace(charged, rate, elapsed); }
    }
  }

  lemma {:induction false} FewerSlices(before: real, after: real)
    requires before > SLACK
    requires after <= before - (if before < SLICE then before else SLICE)
    ensures (if after > 0.0 then (after * 10.0).Floor + 1 else 0) < (before * 10.0).Floor + 1
  {
    if after > 0.0 {
      assert after * 10.0 <= before * 10.0 - 1.0;
    }
  }

  lemma {:induction false} OnPace(charged: nat, rate: nat, elapsed: real)
    requires rate > 0 && charged as real / rate as real - elapsed <= SLACK
    ensures Paced(charged, rate, elapsed)
  {
    var r := rate as real;
    assert charged as real == (charged as real / r) * r;
    MulMono(charged as real / r, elapsed + SLACK, r);
  }

  lemma {:induction false} MulMono(x: real, y: real, r: real)
    requires x <= y && r > 0.0
    ensures x * r <= y * r
  {
  }

  /** A total that is on pace has taken at least its size divided by the rate, less the slack. */
  lemma {:induction false} PaceGivesDuration(charged: nat, rate: nat, elapsed: real)
    requires rate > 0 && Paced(charged, rate, elapsed)
    ensures elapsed >= charged as real / rate as real - SLACK
  {
    var r := rate as real;
    if elapsed + SLACK < charged as real / r {
      assert (elapsed + SLACK) * r < (charged as real / r) * r;
    }
  }
}
