/** Times of successful actions: a full log, and the recent tail of it that a program remembers. */
module WindowLog {

  function Recent(times: seq<real>, now: real, window: real): (kept: seq<real>) {
    if times == [] then []
    else
      var before, last := Recent(times[..|times| - 1], now, window), times[|times| - 1];
      if now - last <= window then before + [last] else before
  }

  predicate Sorted(times: seq<real>) {
    forall i, j :: 0 <= i < j < |times| ==> times[i] <= times[j]
  }

  /** Successive times are at least the gap apart. */
  ghost predicate Spaced(log: seq<real>, gap: real) {
    forall i, j :: 0 <= i && j == i + 1 && j < |log| ==> log[j] - log[i] >= gap
  }

  /** One time more than the budget never fits in a window. */
  ghost predicate Budgeted(log: seq<real>, budget: nat, window: real) {
    forall i, j :: 0 <= i && i + budget <= j < |log| ==> log[j] - log[i] > window
  }

  /** What is remembered is the tail of the log; what was dropped is out of the window for good. */
  ghost predicate Remembers(kept: seq<real>, log: seq<real>, window: real, now: real) {
    && Sorted(log) && (forall t :: t in log ==> t <= now)
    && |kept| <= |log| && kept == log[|log| - |kept|..]
    && (forall i :: 0 <= i < |log| - |kept| ==> now - log[i] > window)
  }

  /** Of times in order, the recent ones are the tail. */
  lemma {:induction false} RecentIsTail(times: seq<real>, now: real, window: real) returns (k: nat)
    requires Sorted(times)
    ensures k <= |times| && Recent(times, now, window) == times[k..]
    ensures forall i :: 0 <= i < k ==> now - times[i] > window
    decreases |times|
  {
    if times == [] {
      k := 0;
    } else {
      var n := |times| - 1;
      var before := times[..n];
      k := RecentIsTail(before, now, window);
      if now - times[n] <= window {
        assert before[k..] + [times[n]] == times[k..];
      } else {
        assert k == n || now - times[k] > window;
        k := |times|;
        OldTailIsEmpty(before, now, window, times[n]);
      }
    }
  }

  /** When the last of times in order is out of the window, all are. */
  lemma {:induction false} OldTailIsEmpty(times: seq<real>, now: real, window: real, last: real)
    requires now - last > window && forall t :: t in times ==> t <= last
    ensures Recent(times, now, window) == []
    decreases |times|
  {
    if times != [] {
      var before := times[..|times| - 1];
      assert times[|times| - 1] in times;
      forall t | t in before ensures t <= last {
        var i :| 0 <= i < |before| && before[i] == t;
        assert times[i] in times;
      }
      OldTailIsEmpty(before, now, window, last);
    }
  }

  /** Forgetting what is out of the window at a later time keeps the tail. */
  lemma {:induction false} PruneRemembers(kept: seq<real>, log: seq<real>, window: real, before: real, now: real)
    requires Remembers(kept, log, window, before) && before <= now
    ensures Remembers(Recent(kept, now, window), log, window, now)
  {
    var cut := |log| - |kept|;
    var k := RecentIsTail(kept, now, window);
    assert kept[k..] == log[cut + k..];
    forall i | 0 <= i < cut + k ensures now - log[i] > window {
      if i >= cut { assert log[i] == kept[i - cut]; }
    }
  }

  lemma {:induction false} SpacedGrows(log: seq<real>, now: real, gap: real)
    requires Spaced(log, gap) && (log != [] ==> now - log[|log| - 1] >= gap)
    ensures Spaced(log + [now], gap)
  {
  }

  /** When fewer than the budget are remembered, one more keeps the budget. */
  lemma {:induction false} BudgetedGrows(kept: seq<real>, log: seq<real>, budget: nat, window: real, now: real)
    requires Budgeted(log, budget, window) && Remembers(kept, log, window, now) && |kept| < budget
    ensures Budgeted(log + [now], budget, window)
  {
    hide Sorted;
    var more := log + [now];
    forall i, j | 0 <= i && i + budget <= j < |more| ensures more[j] - more[i] > window {
      assert more[i] == log[i];
      if j < |log| { assert more[j] == log[j]; }
    }
  }

  /** Remembering one more, made now. */
  lemma {:induction false} RememberGrows(kept: seq<real>, log: seq<real>, window: real, now: real)
    requires Remembers(kept, log, window, now)
    ensures Remembers(kept + [now], log + [now], window, now)
  {
    var more := log + [now];
    assert forall i :: 0 <= i < |log| ==> more[i] == log[i] && log[i] in log;
    assert kept + [now] == more[|log| - |kept|..];
  }
}
