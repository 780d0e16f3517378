/** The restart loop around ffmpeg: how many recorders it starts and when it gives up. */
module RecorderSupervisor {

  const MAX_TOTAL_RESTART_MULTIPLIER := 5

  /** How one attempt goes: the segments it forwards, whether it was stopped, whether a stop is seen after it or during
      the backoff, and whether the next recorder starts. */
  datatype Attempt = Attempt(segments: nat, wasStopped: bool, stopSeen: bool, stopInBackoff: bool, nextStarts: bool)

  /** Attempts in a row, up to attempt `n`, that produced no segment. */
  function Streak(world: nat -> Attempt, n: nat): nat {
    if n == 0 || world(n).segments > 0 then 0 else Streak(world, n - 1) + 1
  }

  predicate GivesUp(world: nat -> Attempt, maxAttempts: nat, n: nat) {
    var a := world(n);
    && !a.wasStopped && !a.stopSeen
    && (Streak(world, n) >= maxAttempts || n >= maxAttempts * MAX_TOTAL_RESTART_MULTIPLIER || (!a.stopInBackoff && !a.nextStarts))
  }

  /** Another attempt follows attempt `n`. */
  predicate Restarts(world: nat -> Attempt, maxAttempts: nat, n: nat) {
    var a := world(n);
    && !a.wasStopped && !a.stopSeen && Streak(world, n) < maxAttempts && n < maxAttempts * MAX_TOTAL_RESTART_MULTIPLIER
    && !a.stopInBackoff && a.nextStarts
  }

  /** Runs to the end whatever the attempts do: after `recorders` of them, each of which but the last was followed by
      a restart, and gives up exactly for one of the three reasons. */
  method Supervise(configured: int, world: nat -> Attempt) returns (gaveUp: bool, recorders: nat)
    ensures var maxAttempts := if configured < 1 then 1 else configured;
      && 1 <= recorders <= maxAttempts * MAX_TOTAL_RESTART_MULTIPLIER
      && (forall n :: 1 <= n < recorders ==> Restarts(world, maxAttempts, n))
      && !Restarts(world, maxAttempts, recorders)
      && (gaveUp <==> GivesUp(world, maxAttempts, recorders))
  {
    var maxAttempts := if configured < 1 then 1 else configured;
    var maxTotalRestarts := maxAttempts * MAX_TOTAL_RESTART_MULTIPLIER;
    var failStreak, totalRestarts, attempt := 0, 0, 1;
    gaveUp, recorders := false, 1;
    while true
      invariant attempt == recorders == totalRestarts + 1 <= maxTotalRestarts
      invariant failStreak == Streak(world, totalRestarts) < maxAttempts
      invariant !gaveUp
      invariant forall n :: 1 <= n < recorders ==> Restarts(world, maxAttempts, n)
      decreases maxTotalRestarts - totalRestarts
    {
      var a := world(attempt);
      if a.wasStopped {
        return;
      }
      if a.stopSeen {
        return;
      }
      if a.segments > 0 {
        failStreak := 0;
      } else {
        failStreak := failStreak + 1;
      }
      totalRestarts := totalRestarts + 1;
      if failStreak >= maxAttempts {
        gaveUp := true;
        return;
      }
      if totalRestarts >= maxTotalRestarts {
        gaveUp := true;
        return;
      }
      if a.stopInBackoff {
        return;
      }
      attempt := attempt + 1;
      if !a.nextStarts {
        gaveUp := true;
        return;
      }
      recorders := attempt;
    }
  }

  /** The streak is `k` or more exactly when the last `k` attempts all produced nothing. */
  lemma {:induction false} StreakExactly(world: nat -> Attempt, n: nat, k: nat)
    ensures Streak(world, n) >= k <==> k <= n && forall m :: n - k < m <= n ==> world(m).segments == 0
  {
    if n > 0 && k > 0 {
      StreakExactly(world, n - 1, k - 1);
    } else if n == 0 {
      assert Streak(world, n) == 0;
    }
  }

  /** No run of attempts without a segment is longer than the configured maximum. */
  lemma {:induction false} UnproductiveRunsBounded(world: nat -> Attempt, maxAttempts: nat, recorders: nat, from: nat, to: nat)
    requires 1 <= from <= to <= recorders && maxAttempts >= 1
    requires forall n :: 1 <= n < recorders ==> Restarts(world, maxAttempts, n)
    requires forall n :: from <= n <= to ==> world(n).segments == 0
    ensures to - from + 1 <= maxAttempts
  {
    StreakExactly(world, to, to - from + 1);
    if from < to {
      assert Restarts(world, maxAttempts, to - 1);
    }
  }
}
