/** Reconnect backoff and the dial times of the two reconnect loops (src/runtime.rs, src/tun/spoke.rs). */
module Reconnect {
  import opened Net

  /** Durations count nanoseconds. */
  const SECOND: nat := 1_000_000_000
  const RECONNECT_BASE: nat := SECOND
  const RECONNECT_MAX: nat := 30 * SECOND
  const MIN_STABLE_CONN: nat := 5 * SECOND

  /** The delay handed out after `steps` earlier ones. */
  function DelayAt(base: nat, max: nat, steps: nat): nat {
    if steps == 0 then base else Min(DelayAt(base, max, steps - 1) * 2, max)
  }

  function Doubled(base: nat, times: nat): nat {
    if times == 0 then base else 2 * Doubled(base, times - 1)
  }

  /** The closed form: the base doubled once for each step, cut at the maximum. */
  lemma {:induction false} DelayIsCappedPower(base: nat, max: nat, steps: nat)
    requires base <= max
    ensures DelayAt(base, max, steps) == Min(Doubled(base, steps), max)
  {
    if steps > 0 {
      DelayIsCappedPower(base, max, steps - 1);
    }
  }

  class Backoff {
    var nextDelay: nat
    const base: nat
    const max: nat
    /** How often the delay has advanced since the last reset. */
    ghost var steps: nat

    ghost predicate Valid()
      reads this
    {
      nextDelay == DelayAt(base, max, steps)
    }

    constructor (base: nat, max: nat)
      ensures Valid() && steps == 0 && this.base == base && this.max == max
    {
      this.nextDelay, this.base, this.max, this.steps := base, base, max, 0;
    }

    method Next() returns (d: nat)
      requires Valid()
      modifies this
      ensures Valid() && steps == old(steps) + 1
      ensures d == DelayAt(base, max, old(steps))
    {
      d := nextDelay;
      nextDelay := Min(nextDelay * 2, max);
      steps := steps + 1;
    }

    method Reset()
      requires Valid()
      modifies this
      ensures Valid() && steps == 0
    {
      nextDelay := base;
      steps := 0;
    }

    /** None means: redial at once. */
    method AfterSession(lived: nat, minStable: nat) returns (d: Option<nat>)
      requires Valid()
      modifies this
      ensures Valid()
      ensures lived >= minStable ==> d == None && steps == 0
      ensures lived < minStable ==> d == Some(DelayAt(base, max, old(steps))) && steps == old(steps) + 1
    {
      if lived >= minStable {
        Reset();
        d := None;
      } else {
        var next := Next();
        d := Some(next);
      }
    }
  }

  // ---------------------------------------------------------------- a loop's history

  /** How many attempts at the end of a history were not stable. */
  function UnstableTail(stable: seq<bool>): nat {
    if stable == [] || stable[|stable| - 1] then 0 else 1 + UnstableTail(stable[..|stable| - 1])
  }

  /** The backoff's delay after the last attempt of a history that did not end stable. */
  function DelayAfter(stable: seq<bool>): nat {
    var k := UnstableTail(stable);
    DelayAt(RECONNECT_BASE, RECONNECT_MAX, if k == 0 then 0 else k - 1)
  }

  /** Dials at least as far apart as one second after a stable attempt and the backoff's delay after any other. */
  ghost predicate Paced(dials: seq<int>, stable: seq<bool>) {
    && |dials| <= |stable|
    && forall i :: 0 < i < |dials| ==> dials[i] - dials[i - 1] >= DelayAfter(stable[..i])
  }

  /** One session of the spoke: how long it lived, from its dial on, and how late the next sleep ended. */
  datatype Attempt = Attempt(lived: nat, late: nat)

  function StableAttempts(attempts: seq<Attempt>): seq<bool> {
    seq(|attempts|, i requires 0 <= i < |attempts| => attempts[i].lived >= MIN_STABLE_CONN)
  }

  /** The time from one dial of the spoke's loop to the next. */
  function SpokeGap(attempts: seq<Attempt>, i: nat): nat
    requires i < |attempts|
  {
    attempts[i].lived + DelayAfter(StableAttempts(attempts)[..i + 1]) + attempts[i].late
  }

  lemma NextDelayAfter(stable: seq<bool>, i: nat)
    requires i < |stable|
    ensures UnstableTail(stable[..i + 1]) == if stable[i] then 0 else UnstableTail(stable[..i]) + 1
  {
    assert stable[..i + 1][..i] == stable[..i];
  }

  /** Attempt i is the k-th in a row that was not stable: those before it, up to a stable one or the first, were not. */
  ghost predicate InARow(stable: seq<bool>, i: nat, k: nat) {
    && 0 < k <= i + 1 <= |stable| && (k <= i ==> stable[i - k])
    && forall j :: i - k < j <= i ==> !stable[j]
  }

  lemma {:induction false} TailInARow(stable: seq<bool>, i: nat, k: nat)
    requires InARow(stable, i, k)
    ensures UnstableTail(stable[..i + 1]) == k
  {
    NextDelayAfter(stable, i);
    if k > 1 {
      TailInARow(stable, i - 1, k - 1);
    } else if i > 0 {
      NextDelayAfter(stable, i - 1);
    }
  }

  /**
   * The wait after an attempt of the spoke: one second when it lived five or more, and after the k-th in a row that
   * did not, a second doubled k - 1 times and cut at thirty.
   */
  lemma SpokeGapExactly(attempts: seq<Attempt>, i: nat, k: nat)
    requires i < |attempts|
    ensures attempts[i].lived >= 5 * SECOND ==> SpokeGap(attempts, i) == attempts[i].lived + SECOND + attempts[i].late
    ensures InARow(StableAttempts(attempts), i, k) ==>
              SpokeGap(attempts, i) == attempts[i].lived + Min(Doubled(SECOND, k - 1), 30 * SECOND) + attempts[i].late
  {
    NextDelayAfter(StableAttempts(attempts), i);
    if InARow(StableAttempts(attempts), i, k) {
      TailInARow(StableAttempts(attempts), i, k);
      DelayIsCappedPower(RECONNECT_BASE, RECONNECT_MAX, k - 1);
    }
  }

  /** The timing of the spoke's reconnect loop: the moments it dials. */
  method SpokeLoop(start: int, attempts: seq<Attempt>) returns (dials: seq<int>)
    ensures |dials| == |attempts| && (attempts != [] ==> dials[0] == start)
    ensures forall i :: 0 < i < |dials| ==> dials[i] == dials[i - 1] + SpokeGap(attempts, i - 1)
    ensures Paced(dials, StableAttempts(attempts))
  {
    var now := start;
    var backoff := new Backoff(RECONNECT_BASE, RECONNECT_MAX);
    var delay: Option<nat> := None;
    ghost var stable := StableAttempts(attempts);
    dials := [];
    for i := 0 to |attempts|
      invariant |dials| == i && (i > 0 ==> dials[0] == start)
      invariant fresh(backoff) && backoff.Valid() && backoff.base == RECONNECT_BASE && backoff.max == RECONNECT_MAX
      invariant backoff.steps == UnstableTail(stable[..i])
      invariant i == 0 ==> delay.None? && now == start
      invariant i > 0 ==> delay == Some(DelayAfter(stable[..i])) && now == dials[i - 1] + attempts[i - 1].lived
      invariant forall j :: 0 < j < i ==> dials[j] == dials[j - 1] + SpokeGap(attempts, j - 1)
    {
      NextDelayAfter(stable, i);
      if delay.Some? {
        now := now + delay.value + attempts[i - 1].late;
      }
      dials := dials + [now];
      var sessionStarted := now;
      now := now + attempts[i].lived;
      var lived := now - sessionStarted;
      var next := backoff.AfterSession(lived, MIN_STABLE_CONN);
      if next.Some? {
        delay := next;
      } else {
        delay := Some(RECONNECT_BASE);
      }
    }
  }

  /** One dial of the watcher: how long it took, whether it connected, how long the connection lived, lateness. */
  datatype Round = Round(takes: nat, ok: bool, lives: nat, late: nat)

  function StableRounds(rounds: seq<Round>): seq<bool> {
    seq(|rounds|, i requires 0 <= i < |rounds| => rounds[i].ok && rounds[i].lives >= MIN_STABLE_CONN)
  }

  function WatcherGap(rounds: seq<Round>, i: nat): nat
    requires i < |rounds|
  {
    rounds[i].takes + (if rounds[i].ok then rounds[i].lives else 0)
    + if StableRounds(rounds)[i] then 0 else DelayAfter(StableRounds(rounds)[..i + 1]) + rounds[i].late
  }

  ghost predicate FollowsGaps(dials: seq<int>, rounds: seq<Round>) {
    |dials| <= |rounds| && forall i :: 0 < i < |dials| ==> dials[i] == dials[i - 1] + WatcherGap(rounds, i - 1)
  }

  lemma OneMoreDial(dials: seq<int>, rounds: seq<Round>, d: int)
    requires FollowsGaps(dials, rounds) && |dials| < |rounds|
    requires dials != [] ==> d == dials[|dials| - 1] + WatcherGap(rounds, |dials| - 1)
    ensures FollowsGaps(dials + [d], rounds)
  {
  }

  /** The sleep after a connection that lived so long, when so many attempts before it were not stable. */
  function WaitFor(lived: int, tail: nat, late: nat): nat {
    if lived >= MIN_STABLE_CONN then 0 else DelayAt(RECONNECT_BASE, RECONNECT_MAX, tail) + late
  }

  lemma WatcherGapIs(rounds: seq<Round>, i: nat)
    requires i < |rounds|
    ensures var r, tail := rounds[i], UnstableTail(StableRounds(rounds)[..i]);
            WatcherGap(rounds, i) ==
            if r.ok then r.takes + r.lives + WaitFor(r.lives, tail, r.late) else r.takes + WaitFor(0, tail, r.late)
  {
    NextDelayAfter(StableRounds(rounds), i);
  }

  /**
   * The time from one dial of the watcher to the next: none behind a connection that lived five seconds, and after the
   * k-th attempt in a row that failed or did not, a second doubled k - 1 times and cut at thirty.
   */
  lemma WatcherGapExactly(rounds: seq<Round>, i: nat, k: nat)
    requires i < |rounds|
    ensures var r := rounds[i];
            && (r.ok && r.lives >= 5 * SECOND ==> WatcherGap(rounds, i) == r.takes + r.lives)
            && (InARow(StableRounds(rounds), i, k) ==>
                  WatcherGap(rounds, i) == r.takes + (if r.ok then r.lives else 0)
                                           + Min(Doubled(SECOND, k - 1), 30 * SECOND) + r.late)
  {
    if InARow(StableRounds(rounds), i, k) {
      TailInARow(StableRounds(rounds), i, k);
      DelayIsCappedPower(RECONNECT_BASE, RECONNECT_MAX, k - 1);
    }
  }

  /**
   * The timing of `spawn_reconnect_watcher`: the moments it dials. `before` is the life left to a
   * connection installed before the watcher started, if there is one.
   */
  method Watcher(start: int, before: Option<nat>, rounds: seq<Round>) returns (dials: seq<int>)
    ensures |dials| == |rounds|
    ensures rounds != [] ==> dials[0] == start + if before.Some? then before.value else 0
    ensures FollowsGaps(dials, rounds) && Paced(dials, StableRounds(rounds))
  {
    var now := start;
    var backoff := new Backoff(RECONNECT_BASE, RECONNECT_MAX);
    var connectedAt: Option<int> := if before.Some? then Some(now - MIN_STABLE_CONN) else None;
    var up := before.Some?;
    var lives: nat := if before.Some? then before.value else 0;
    /** The attempts without a stable one before the one under way, when the next dial is due, and its lateness. */
    ghost var tail, due, late := 0, now + lives, 0;
    dials := [];
    for i := 0 to |rounds|
      invariant |dials| == i
      invariant fresh(backoff) && backoff.Valid() && backoff.base == RECONNECT_BASE && backoff.max == RECONNECT_MAX
      invariant up ==> connectedAt.Some? && now + lives == due - WaitFor(lives + now - connectedAt.value, tail, late)
      invariant up ==> backoff.steps == tail
      invariant i > 0 ==> late == rounds[i - 1].late
      invariant i == 0 && up ==> now - connectedAt.value >= MIN_STABLE_CONN
      invariant !up ==> now == due
      invariant if i == 0 then tail == 0 && (up || backoff.steps == 0)
                else tail == UnstableTail(StableRounds(rounds)[..i - 1])
      invariant i > 0 && !up ==> backoff.steps == tail + 1 && !rounds[i - 1].ok
      invariant i > 0 && up ==> rounds[i - 1].ok && connectedAt == Some(now) && lives == rounds[i - 1].lives
      invariant i == 0 ==> due == start + if before.Some? then before.value else 0
      invariant i > 0 ==> dials[0] == start + if before.Some? then before.value else 0
      invariant i > 0 ==> due == dials[i - 1] + WatcherGap(rounds, i - 1)
      invariant FollowsGaps(dials, rounds)
    {
      WatcherGapIs(rounds, i);
      if i > 0 {
        NextDelayAfter(StableRounds(rounds), i - 1);
      }
      if up {
        now := now + lives;
        up := false;
        var lived := if connectedAt.Some? then now - connectedAt.value else 0;
        connectedAt := None;
        var delay := backoff.AfterSession(lived, MIN_STABLE_CONN);
        if delay.Some? {
          now := now + delay.value + if i > 0 then rounds[i - 1].late else 0;
        }
      }
      assert now == due;
      tail := backoff.steps;
      assert tail == UnstableTail(StableRounds(rounds)[..i]);
      late := rounds[i].late;
      OneMoreDial(dials, rounds, now);
      dials := dials + [now];
      due := now + WatcherGap(rounds, i);
      now := now + rounds[i].takes;
      if rounds[i].ok {
        connectedAt := Some(now);
        up := true;
        lives := rounds[i].lives;
      } else {
        var delay := backoff.Next();
        now := now + delay + rounds[i].late;
      }
    }
    StableGaps(rounds, dials);
  }

  lemma StableGaps(rounds: seq<Round>, dials: seq<int>)
    requires |dials| == |rounds| && FollowsGaps(dials, rounds)
    ensures Paced(dials, StableRounds(rounds))
  {
    var stable := StableRounds(rounds);
    forall i | 0 < i < |dials| ensures dials[i] - dials[i - 1] >= DelayAfter(stable[..i]) {
      NextDelayAfter(stable, i - 1);
      assert dials[i] == dials[i - 1] + WatcherGap(rounds, i - 1);
    }
  }

  // ---------------------------------------------------------------- how fast either loop dials

  lemma {:induction false} DelaysGrow(a: nat, b: nat)
    requires a <= b
    ensures SECOND <= DelayAt(RECONNECT_BASE, RECONNECT_MAX, a) <= DelayAt(RECONNECT_BASE, RECONNECT_MAX, b) <= RECONNECT_MAX
    decreases b
  {
    if a < b {
      DelaysGrow(a, b - 1);
      DelaysGrow(b - 1, b - 1);
    } else if a > 0 {
      DelaysGrow(a - 1, b - 1);
    }
  }

  /** Any two dials are at least one second apart for each step between them. */
  lemma {:induction false} DialsAreSpaced(dials: seq<int>, stable: seq<bool>, i: nat, j: nat)
    requires Paced(dials, stable) && i <= j < |dials|
    ensures dials[j] - dials[i] >= (j - i) * SECOND
    decreases j
  {
    if i < j {
      DialsAreSpaced(dials, stable, i, j - 1);
      var k := UnstableTail(stable[..j]);
      DelaysGrow(0, if k == 0 then 0 else k - 1);
    }
  }

  /** The shortest time that n consecutive waits after unstable attempts can take. */
  function WaitOf(n: nat): nat {
    if n == 0 then 0 else WaitOf(n - 1) + DelayAt(RECONNECT_BASE, RECONNECT_MAX, n - 1)
  }

  lemma {:induction false} TailIsLong(stable: seq<bool>, i: nat, j: nat)
    requires i < j <= |stable| && forall k :: i <= k < j ==> !stable[k]
    ensures UnstableTail(stable[..j]) >= j - i
    decreases j
  {
    NextDelayAfter(stable, j - 1);
    if i < j - 1 {
      TailIsLong(stable, i, j - 1);
    }
  }

  lemma {:induction false} SpanOfUnstable(dials: seq<int>, stable: seq<bool>, i: nat, j: nat)
    requires Paced(dials, stable) && i <= j < |dials|
    requires forall k :: i <= k < j ==> !stable[k]
    ensures dials[j] - dials[i] >= WaitOf(j - i)
    decreases j
  {
    if i < j {
      SpanOfUnstable(dials, stable, i, j - 1);
      TailIsLong(stable, i, j);
      DelaysGrow(j - i - 1, UnstableTail(stable[..j]) - 1);
    }
  }

  lemma FirstDelays()
    ensures DelayAt(RECONNECT_BASE, RECONNECT_MAX, 0) == SECOND
    ensures DelayAt(RECONNECT_BASE, RECONNECT_MAX, 1) == 2 * SECOND
    ensures DelayAt(RECONNECT_BASE, RECONNECT_MAX, 2) == 4 * SECOND
    ensures DelayAt(RECONNECT_BASE, RECONNECT_MAX, 3) == 8 * SECOND
    ensures DelayAt(RECONNECT_BASE, RECONNECT_MAX, 4) == 16 * SECOND
    ensures DelayAt(RECONNECT_BASE, RECONNECT_MAX, 5) == 30 * SECOND
  {
    DelayIsCappedPower(RECONNECT_BASE, RECONNECT_MAX, 5);
  }

  lemma {:induction false} WaitClosedForm(n: nat)
    ensures WaitOf(n) == match n
                         case 0 => 0
                         case 1 => SECOND
                         case 2 => 3 * SECOND
                         case 3 => 7 * SECOND
                         case 4 => 15 * SECOND
                         case _ => 31 * SECOND + (n - 5) * RECONNECT_MAX
  {
    FirstDelays();
    if n > 0 {
      WaitClosedForm(n - 1);
    }
    if n > 5 {
      DelaysGrow(5, n - 1);
    }
  }

  /**
   * A span of T whose attempts were all unstable, the last one aside, holds at most 5 + T/30s dials.
   * (j - i + 1 dials lie between dial i and dial j.)
   */
  lemma UnstableDialRate(dials: seq<int>, stable: seq<bool>, i: nat, j: nat, span: nat)
    requires Paced(dials, stable) && i <= j < |dials|
    requires forall k :: i <= k < j ==> !stable[k]
    requires dials[j] - dials[i] <= span
    ensures j - i + 1 <= 5 + span / RECONNECT_MAX
  {
    SpanOfUnstable(dials, stable, i, j);
    WaitClosedForm(j - i);
  }

  /** The bound is met: attempts that fail at once, with sleeps that end on time, dial exactly that often. */
  lemma {:induction false} RateIsReached(dials: seq<int>, attempts: seq<Attempt>, i: nat)
    requires |dials| == |attempts| && i < |dials|
    requires forall k :: 0 <= k < |attempts| ==> attempts[k] == Attempt(0, 0)
    requires forall k :: 0 < k < |dials| ==> dials[k] == dials[k - 1] + SpokeGap(attempts, k - 1)
    ensures dials[i] - dials[0] == WaitOf(i)
    ensures i >= 4 ==> i + 1 == 5 + (dials[i] - dials[0]) / RECONNECT_MAX
  {
    WaitClosedForm(i);
    if i > 0 {
      RateIsReached(dials, attempts, i - 1);
      assert attempts[i - 1] == Attempt(0, 0);
      TailIsAll(attempts, i);
    }
  }

  lemma {:induction false} TailIsAll(attempts: seq<Attempt>, i: nat)
    requires i <= |attempts| && forall k :: 0 <= k < |attempts| ==> attempts[k] == Attempt(0, 0)
    ensures UnstableTail(StableAttempts(attempts)[..i]) == i
  {
    if i > 0 {
      TailIsAll(attempts, i - 1);
      NextDelayAfter(StableAttempts(attempts), i - 1);
      assert attempts[i - 1] == Attempt(0, 0);
    }
  }
}
