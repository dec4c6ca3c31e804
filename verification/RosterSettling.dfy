/**
 * Convergence is not only safe but reachable: from every state that is not lost, the hub's tasks and
 * the spoke's reader bring a spoke's roster to what it should be; and a bound on the crowd that rules
 * lost states out.
 */
module RosterSettling {
  import opened Net
  import opened HubIndex
  import opened RosterTypes
  import opened RosterProtocol
  import opened RosterConvergence
  import opened RosterFans
  import opened RosterLocks

  // ---------------------------------------------------------------- reaching convergence

  lemma TaskStepIsAllowed(s: State, step: Step)
    requires Enabled(s, step) && TaskStep(step) && Modest(s, step) && |s.index.byV4| < ROSTER_MAX_ENTRIES
    ensures Allowed(s, step) && Next(s, step).index == s.index
  {
  }

  lemma {:induction false} ScheduleIsAllowed(states: seq<State>, steps: seq<Step>, s: State, t: State)
    requires Schedule(states, steps, s, t) && |s.index.byV4| < ROSTER_MAX_ENTRIES
    ensures AllAllowed(states, steps) && t.index == s.index
  {
    if steps != [] {
      var n := |steps| - 1;
      ScheduleIsAllowed(states[..n + 1], steps[..n], s, states[n]);
      TaskStepIsAllowed(states[n], steps[n]);
    }
  }

  lemma RunJoins(a: seq<State>, on: seq<Step>, b: seq<State>, more: seq<Step>)
    requires Run(a, on) && Run(b, more) && a[|on|] == b[0] && AllAllowed(a, on) && AllAllowed(b, more)
    ensures Run(a + b[1..], on + more) && AllAllowed(a + b[1..], on + more)
    ensures (a + b[1..])[|on + more|] == b[|more|] && (a + b[1..])[0] == a[0]
  {
    var n, c := |on|, a + b[1..];
    forall i | 0 <= i <= |more| ensures c[n + i] == b[i] {
    }
    forall i | 0 <= i < |on + more|
      ensures Enabled(c[i], (on + more)[i]) && c[i + 1] == Next(c[i], (on + more)[i]) && Allowed(c[i], (on + more)[i])
    {
      if i >= n {
        assert c[n + (i - n)] == b[i - n] && c[n + (i - n + 1)] == b[i - n + 1];
      }
    }
  }

  lemma {:induction false} StillThere(states: seq<State>, steps: seq<Step>)
    requires Run(states, steps)
    ensures states[0].sessions.Keys <= states[|steps|].sessions.Keys
  {
    if steps != [] {
      var n := |steps| - 1;
      StillThere(states[..n + 1], steps[..n]);
      StepIsLocal(states[n], steps[n]);
    }
  }

  /** A settled state in which these sessions pump. */
  ghost predicate Pumps(s: State, xs: set<nat>) {
    Settled(s) && forall x :: x in xs ==> x in s.sessions && s.sessions[x].phase.Pumping?
  }

  /** One message of a pumping session goes on: from its queue to the wire, or from the wire to the roster. */
  lemma DrainStep(s: State, x: nat) returns (step: Step)
    requires Settled(s) && x in s.sessions && s.sessions[x].phase.Pumping? && s.sessions[x].Unread() != []
    ensures Enabled(s, step) && Allowed(s, step) && Settled(Next(s, step)) && Next(s, step).index == s.index
    ensures x in Next(s, step).sessions && Next(s, step).sessions[x].phase.Pumping?
    ensures 2 * |Next(s, step).sessions[x].fanQ| + |Next(s, step).sessions[x].wire|
            < 2 * |s.sessions[x].fanQ| + |s.sessions[x].wire|
    ensures forall y :: y in s.sessions && y != x ==>
                          y in Next(s, step).sessions && Next(s, step).sessions[y] == s.sessions[y]
    ensures Next(s, step).sessions.Keys == s.sessions.Keys
  {
    step := if s.sessions[x].fanQ != [] then Forward(x) else Read(x);
    OwnSession(s, step);
    StepIsLocal(s, step);
  }

  /** With every broadcast complete, a session's messages are forwarded and read to the last, and nobody else's touched. */
  lemma {:induction false} Drains(s: State, x: nat) returns (states: seq<State>, steps: seq<Step>)
    requires Settled(s) && x in s.sessions && s.sessions[x].phase.Pumping?
    ensures Run(states, steps) && AllAllowed(states, steps) && states[0] == s
    ensures Settled(states[|steps|]) && states[|steps|].index == s.index
    ensures states[|steps|].sessions.Keys == s.sessions.Keys
    ensures states[|steps|].sessions[x].phase.Pumping? && states[|steps|].sessions[x].Unread() == []
    ensures forall y :: y in s.sessions && y != x ==> states[|steps|].sessions[y] == s.sessions[y]
    decreases 2 * |s.sessions[x].fanQ| + |s.sessions[x].wire|
  {
    if s.sessions[x].Unread() == [] {
      states, steps := [s], [];
    } else {
      var step := DrainStep(s, x);
      var states', steps' := Drains(Next(s, step), x);
      states, steps := [s] + states', [step] + steps';
      assert states[|steps|] == states'[|steps'|];
    }
  }

  /** One after the other, all of them read everything. */
  lemma {:induction false} AllDrain(s: State, xs: set<nat>) returns (states: seq<State>, steps: seq<Step>)
    requires Pumps(s, xs)
    ensures Run(states, steps) && AllAllowed(states, steps) && states[0] == s
    ensures Settled(states[|steps|]) && states[|steps|].index == s.index
    ensures states[|steps|].sessions.Keys == s.sessions.Keys
    ensures forall x :: x in xs ==> x in states[|steps|].sessions && states[|steps|].sessions[x].Unread() == []
    ensures forall y :: y in s.sessions && y !in xs ==> states[|steps|].sessions[y] == s.sessions[y]
    decreases |xs|
  {
    if x :| x in xs {
      var a, on := AllDrain(s, xs - {x});
      var t := a[|on|];
      assert t.sessions[x] == s.sessions[x];
      var b, more := Drains(t, x);
      RunJoins(a, on, b, more);
      states, steps := a + b[1..], on + more;
    } else {
      states, steps := [s], [];
    }
  }

  function Attached(s: State): set<nat> {
    set x | x in s.sessions && s.sessions[x].Holding()
  }

  /** An attached session of a settled state pumps. */
  lemma AttachedPump(s: State)
    requires Settled(s)
    ensures Pumps(s, Attached(s))
  {
  }

  /** Every attached spoke is right about exactly what is not loose. */
  ghost predicate AllConverged(states: seq<State>, steps: seq<Step>)
    requires Run(states, steps)
  {
    var s := states[|steps|];
    Settled(s) && forall x, id :: x in s.sessions && Holds(s.index, x) ==>
                                    (RightAbout(s, s.sessions[x], id) <==> !LooseOf(states, steps, x, id))
  }

  ghost predicate ConvergingRun(states: seq<State>, steps: seq<Step>, more: seq<State>, on: seq<Step>) {
    && Run(more, on) && AllAllowed(more, on) && Run(states + more[1..], steps + on)
    && AllConverged(states + more[1..], steps + on)
  }

  /** First the hub's tasks settle. */
  lemma SettlesAllowed(states: seq<State>, steps: seq<Step>) returns (more: seq<State>, on: seq<Step>)
    requires Run(states, steps) && AllAllowed(states, steps) && Initial(states[0])
    requires !Doomed(states[|steps|]) && |states[|steps|].index.byV4| < ROSTER_MAX_ENTRIES
    ensures Run(more, on) && AllAllowed(more, on) && more[0] == states[|steps|] && Settled(more[|on|])
  {
    RunIsPlumbed(states, steps);
    RunKeepsUnderOwnVips(states, steps);
    more, on := UndoomedSettles(states[|steps|]);
    ScheduleIsAllowed(more, on, states[|steps|], more[|on|]);
  }

  /**
   * After any run within the hypotheses that has not come to an overfull set, one continuation within them settles
   * and makes every attached spoke's roster right about exactly the ids that are not among its loose entries.
   */
  lemma ConvergenceIsReachable(states: seq<State>, steps: seq<Step>)
    requires Run(states, steps) && AllAllowed(states, steps) && Initial(states[0])
    requires !Doomed(states[|steps|]) && |states[|steps|].index.byV4| < ROSTER_MAX_ENTRIES
    ensures exists more, on :: ConvergingRun(states, steps, more, on)
  {
    var a, on := SettlesAllowed(states, steps);
    var t := a[|on|];
    AttachedPump(t);
    var b, more := AllDrain(t, Attached(t));
    RunJoins(a, on, b, more);
    RunJoins(states, steps, a + b[1..], on + more);
    DrainedConverge(states + (a + b[1..])[1..], steps + (on + more));
    assert ConvergingRun(states, steps, a + b[1..], on + more);
  }

  lemma DrainedConverge(states: seq<State>, steps: seq<Step>)
    requires Run(states, steps) && AllAllowed(states, steps) && Initial(states[0]) && Settled(states[|steps|])
    requires var s := states[|steps|];
             forall x :: x in Attached(s) ==> s.sessions[x].Unread() == []
    ensures AllConverged(states, steps)
  {
    RunKeepsInv(states, steps);
    var s := states[|steps|];
    forall x, id | x in s.sessions && Holds(s.index, x)
      ensures RightAbout(s, s.sessions[x], id) <==> !LooseOf(states, steps, x, id)
    {
      AttachedIsHolding(s, x);
      RosterConverges(states, steps, x);
    }
  }

  // ---------------------------------------------------------------- a bound on the crowd

  /** Those whose list of receivers has x on it. */
  function Awaiters(s: State, x: nat): set<nat> {
    set q | q in s.sessions && x in s.sessions[q].Awaited()
  }

  predicate Listing(s': State, step: Step, x: nat) {
    (step.CollectJoined? || step.CollectLeft?) && step.sid in s'.sessions && x in s'.sessions[step.sid].Awaited()
  }

  /** How many broadcasts have been collected with x on the list since step i. */
  ghost function Listings(states: seq<State>, steps: seq<Step>, i: nat, x: nat): nat
    requires |states| == |steps| + 1
  {
    if |steps| <= i + 1 then 0
    else
      var n := |steps| - 1;
      Listings(states[..n + 1], steps[..n], i, x) + if Listing(states[|steps|], steps[n], x) then 1 else 0
  }

  /** Nobody awaits a session that has not registered its fan. */
  ghost predicate NoEarlyTargets(s: State) {
    forall x :: x in s.sessions && Early(s.sessions[x]) ==> Awaiters(s, x) == {}
  }

  lemma NewAwaiter(s: State, step: Step, x: nat, q: nat)
    requires Enabled(s, step) && q in Awaiters(Next(s, step), x) && q !in Awaiters(s, x)
    ensures q == step.sid && Listing(Next(s, step), step, x) && x in s.fans.Values
  {
    StepIsLocal(s, step);
    if q != step.sid {
      OtherSession(s, step, q);
    } else if !step.Accept? {
      OwnSession(s, step);
    }
  }

  lemma StepKeepsNoEarlyTargets(s: State, step: Step)
    requires NoEarlyTargets(s) && TargetsKnown(s) && FansOwn(s) && Enabled(s, step)
    ensures NoEarlyTargets(Next(s, step))
  {
    StepIsLocal(s, step);
    var s' := Next(s, step);
    forall x, q | x in s'.sessions && Early(s'.sessions[x]) && q in Awaiters(s', x) ensures false {
      if q !in Awaiters(s, x) {
        NewAwaiter(s, step, x, q);
      }
      assert x in s.sessions;
      if !Early(s.sessions[x]) {
        EarlyIsOver(s, step, x);
      }
    }
    forall x | x in s'.sessions && Early(s'.sessions[x]) ensures Awaiters(s', x) == {} {
      if q :| q in Awaiters(s', x) {
        assert false;
      }
    }
  }

  lemma {:induction false} RunHasNoEarlyTargets(states: seq<State>, steps: seq<Step>)
    requires Run(states, steps) && Initial(states[0])
    ensures NoEarlyTargets(states[|steps|])
  {
    if steps != [] {
      var n := |steps| - 1;
      RunHasNoEarlyTargets(states[..n + 1], steps[..n]);
      RunIsPlumbed(states[..n + 1], steps[..n]);
      RunKeepsFansOwn(states[..n + 1], steps[..n]);
      StepKeepsNoEarlyTargets(states[n], steps[n]);
    }
  }

  /** What waits in a session's queue and what is still on its way there. */
  function Pending(s: State, x: nat): nat
    requires x in s.sessions
  {
    |s.sessions[x].fanQ| + |Awaiters(s, x)|
  }

  /** Before a session reads, one broadcast adds at most one to what is pending for it. */
  lemma PendingGrowsByListing(s: State, step: Step, x: nat)
    requires Enabled(s, step) && x in s.sessions && x in Next(s, step).sessions && !s.sessions[x].phase.Pumping?
    ensures Pending(Next(s, step), x) <= Pending(s, x) + if Listing(Next(s, step), step, x) then 1 else 0
  {
    var s' := Next(s, step);
    if x == step.sid && !step.Accept? {
      OwnSession(s, step);
    } else if x != step.sid {
      OtherSession(s, step, x);
    }
    if DeliversTo(s, step, x) {
      SentIsNotAwaited(s, step, x);
      SubsetIsSmaller(Awaiters(s', x), Awaiters(s, x) - {step.sid});
    } else {
      var one := if Listing(s', step, x) then {step.sid} else {};
      forall q | q in Awaiters(s', x) ensures q in Awaiters(s, x) + one {
        if q !in Awaiters(s, x) {
          NewAwaiter(s, step, x, q);
        }
      }
      SubsetIsSmaller(Awaiters(s', x), Awaiters(s, x) + one);
    }
  }

  lemma SentIsNotAwaited(s: State, step: Step, x: nat)
    requires Enabled(s, step) && DeliversTo(s, step, x)
    ensures step.sid in Awaiters(s, x) && Awaiters(Next(s, step), x) <= Awaiters(s, x) - {step.sid}
  {
    StepIsLocal(s, step);
    OwnSession(s, step);
    forall q | q in Awaiters(Next(s, step), x) ensures q in Awaiters(s, x) - {step.sid} {
      if q != step.sid {
        OtherSession(s, step, q);
      }
    }
  }

  /** When its fan is registered nothing is pending for a session. */
  lemma NothingPendingYet(states: seq<State>, steps: seq<Step>, x: nat)
    requires Run(states, steps) && Initial(states[0])
    requires x in states[|steps|].sessions && states[|steps|].sessions[x].phase.Claimed?
    ensures Pending(states[|steps|], x) == 0
  {
    RunHasNoEarlyTargets(states, steps);
    RunIsPlumbed(states, steps);
  }

  lemma InsertionListsNothing(s: State, x: nat)
    requires Enabled(s, InsertFan(x)) && Pending(s, x) == 0
    ensures x in Next(s, InsertFan(x)).sessions && Pending(Next(s, InsertFan(x)), x) == 0
  {
    OwnSession(s, InsertFan(x));
    PendingGrowsByListing(s, InsertFan(x), x);
  }

  lemma NothingListedYet(states: seq<State>, steps: seq<Step>, x: nat)
    requires Run(states, steps) && Initial(states[0]) && steps != [] && steps[|steps| - 1] == InsertFan(x)
    ensures x in states[|steps|].sessions && Pending(states[|steps|], x) == 0
  {
    var n := |steps| - 1;
    NothingPendingYet(states[..n + 1], steps[..n], x);
    InsertionListsNothing(states[n], x);
  }

  lemma BoardingPendingGrows(s: State, step: Step, x: nat)
    requires Enabled(s, step) && x in s.sessions && !Early(s.sessions[x])
    requires x in Next(s, step).sessions && Boarding(Next(s, step).sessions[x])
    ensures Boarding(s.sessions[x])
    ensures Pending(Next(s, step), x) <= Pending(s, x) + if Listing(Next(s, step), step, x) then 1 else 0
  {
    BoardedBefore(s, step, x);
    PendingGrowsByListing(s, step, x);
  }

  /** One more step after a run. */
  lemma PendingStep(before: seq<State>, done: seq<Step>, step: Step, i: nat, x: nat)
    requires Run(before, done) && i < |done| && done[i] == InsertFan(x) && Enabled(before[|done|], step)
    requires var s' := Next(before[|done|], step); x in s'.sessions && Boarding(s'.sessions[x])
    requires x in before[|done|].sessions && Boarding(before[|done|].sessions[x]) ==>
               Pending(before[|done|], x) <= Listings(before, done, i, x)
    ensures var s' := Next(before[|done|], step);
            Pending(s', x) <= Listings(before, done, i, x) + if Listing(s', step, x) then 1 else 0
  {
    PastInsertion(before, done, i, x);
    BoardingPendingGrows(before[|done|], step, x);
  }

  /** In any run, what is pending for a boarding session is no more than the broadcasts that have listed it. */
  lemma {:induction false} PendingIsListed(states: seq<State>, steps: seq<Step>, i: nat, x: nat)
    requires Run(states, steps) && Initial(states[0]) && i < |steps| && steps[i] == InsertFan(x)
    requires x in states[|steps|].sessions && Boarding(states[|steps|].sessions[x])
    ensures Pending(states[|steps|], x) <= Listings(states, steps, i, x)
  {
    var n := |steps| - 1;
    if i == n {
      NothingListedYet(states, steps, x);
    } else {
      var before, done := states[..n + 1], steps[..n];
      if x in before[n].sessions && Boarding(before[n].sessions[x]) {
        PendingIsListed(before, done, i, x);
      }
      PendingStep(before, done, steps[n], i, x);
    }
  }

  lemma BoardedBefore(s: State, step: Step, x: nat)
    requires Enabled(s, step) && x in s.sessions && !Early(s.sessions[x])
    requires x in Next(s, step).sessions && Boarding(Next(s, step).sessions[x])
    ensures Boarding(s.sessions[x])
  {
    if x == step.sid {
      OwnSession(s, step);
    } else {
      OtherSession(s, step, x);
    }
  }

  /** Visible sessions that have registered and not yet collected the receivers of their Joined. */
  function Collectors(s: State): set<nat> {
    set q | q in s.sessions && !s.sessions[q].hidden && (s.sessions[q].phase.Fanned? || s.sessions[q].phase.Snapped?)
  }

  /**
   * The guard: while every boarding session has been listed by at most 32 broadcasts since it registered - its
   * own among them - counting those about to be collected, the hub is not lost, whatever overlaps.
   */
  lemma SmallCrowdNeverLocks(states: seq<State>, steps: seq<Step>)
    requires Run(states, steps) && Initial(states[0])
    requires forall x, i :: x in states[|steps|].sessions && Boarding(states[|steps|].sessions[x])
                            && 0 <= i < |steps| && steps[i] == InsertFan(x) ==>
                       Listings(states, steps, i, x) + |Collectors(states[|steps|])| <= 32
    ensures !Doomed(states[|steps|])
  {
    var s := states[|steps|];
    forall w ensures !Overfull(s, w) {
      if x :| x in w && TooMuch(s, w, x) {
        ListenersHaveRegistered(states, steps, x);
        var i :| 0 <= i < |steps| && steps[i] == InsertFan(x);
        PendingIsListed(states, steps, i, x);
        LoadIsPending(s, w, x);
        assert Listings(states, steps, i, x) + |Collectors(s)| <= 32;
      }
    }
  }

  lemma LoadIsPending(s: State, w: set<nat>, x: nat)
    requires x in s.sessions
    ensures Load(s, w, x) <= Pending(s, x) + |Collectors(s)|
  {
    SubsetIsSmaller(Owing(s, w, x), Awaiters(s, x) + Collectors(s));
  }
}
