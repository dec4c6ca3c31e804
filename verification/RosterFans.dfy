/** When a session loses its fan-out queue, over every run whatever (src/tun/hub.rs:576, 667-668). */
module RosterFans {
  import opened Net
  import opened HubIndex
  import opened RosterTypes
  import opened RosterProtocol
  import opened RosterConvergence

  /** Each registered fan belongs to a session of the peer it is filed under, one that has registered it. */
  ghost predicate FansOwn(s: State) {
    forall id :: id in s.fans ==>
      s.fans[id] in s.sessions && s.sessions[s.fans[id]].id == id && !Early(s.sessions[s.fans[id]])
  }

  predicate Registered(s: State, x: nat) {
    x in s.sessions && s.sessions[x].id in s.fans && s.fans[s.sessions[x].id] == x
  }

  /** Another session of the same peer registers its own fan or drops the peer's. */
  predicate Takes(s: State, step: Step, x: nat) {
    && (step.InsertFan? || step.DropFan?)
    && step.sid != x && step.sid in s.sessions && x in s.sessions
    && s.sessions[step.sid].id == s.sessions[x].id
  }

  lemma EarlyIsOver(s: State, step: Step, x: nat)
    requires Enabled(s, step) && x in s.sessions && !Early(s.sessions[x])
    ensures x in Next(s, step).sessions && !Early(Next(s, step).sessions[x])
  {
    StepIsLocal(s, step);
    if x == step.sid && !step.Accept? {
      OwnSession(s, step);
    }
  }

  lemma StepKeepsFansOwn(s: State, step: Step)
    requires FansOwn(s) && Enabled(s, step)
    ensures FansOwn(Next(s, step))
  {
    StepIsLocal(s, step);
    var s' := Next(s, step);
    forall id | id in s'.fans
      ensures s'.fans[id] in s'.sessions && s'.sessions[s'.fans[id]].id == id && !Early(s'.sessions[s'.fans[id]])
    {
      if id in s.fans && s'.fans[id] == s.fans[id] {
        EarlyIsOver(s, step, s.fans[id]);
      } else {
        OwnSession(s, step);
      }
    }
  }

  lemma {:induction false} RunKeepsFansOwn(states: seq<State>, steps: seq<Step>)
    requires Run(states, steps) && Initial(states[0])
    ensures FansOwn(states[|steps|])
  {
    if steps != [] {
      var n := |steps| - 1;
      RunKeepsFansOwn(states[..n + 1], steps[..n]);
      StepKeepsFansOwn(states[n], steps[n]);
    }
  }

  lemma RegisteredIsFan(s: State, x: nat)
    requires FansOwn(s)
    ensures Registered(s, x) <==> x in s.fans.Values
  {
  }

  /** What one step does to the registration of a session that has been through InsertFan. */
  lemma RegisteredAfter(s: State, step: Step, x: nat)
    requires FansOwn(s) && Enabled(s, step) && x in s.sessions && !Early(s.sessions[x])
    ensures Registered(Next(s, step), x) <==> Registered(s, x) && !Takes(s, step, x) && step != DropFan(x)
  {
    StepIsLocal(s, step);
  }

  lemma {:induction false} PastInsertion(states: seq<State>, steps: seq<Step>, i: nat, x: nat)
    requires Run(states, steps) && i < |steps| && steps[i] == InsertFan(x)
    ensures x in states[|steps|].sessions && !Early(states[|steps|].sessions[x])
  {
    var n := |steps| - 1;
    if i < n {
      PastInsertion(states[..n + 1], steps[..n], i, x);
      EarlyIsOver(states[n], steps[n], x);
    } else {
      OwnSession(states[n], steps[n]);
    }
  }

  /** Some step behind the i-th took the fan of x. */
  ghost predicate Taken(states: seq<State>, steps: seq<Step>, i: nat, x: nat)
    requires |states| == |steps| + 1
  {
    exists j :: i < j < |steps| && Takes(states[j], steps[j], x)
  }

  lemma TakenStep(states: seq<State>, steps: seq<Step>, i: nat, x: nat)
    requires |states| == |steps| + 1 && i < |steps| - 1
    ensures var n := |steps| - 1;
            Taken(states, steps, i, x) <==> Taken(states[..n + 1], steps[..n], i, x) || Takes(states[n], steps[n], x)
  {
    var n := |steps| - 1;
    if Taken(states[..n + 1], steps[..n], i, x) {
      var j :| i < j < n && Takes(states[..n + 1][j], steps[..n][j], x);
      assert Takes(states[j], steps[j], x);
    }
    if Taken(states, steps, i, x) {
      var j :| i < j < |steps| && Takes(states[j], steps[j], x);
      if j < n {
        assert Takes(states[..n + 1][j], steps[..n][j], x);
      }
    }
  }

  /**
   * In every run: a listening session has its fan if and only if since it registered it no other session of
   * the same peer has registered or dropped one.
   */
  lemma {:induction false} FanLostExactly(states: seq<State>, steps: seq<Step>, i: nat, x: nat)
    requires Run(states, steps) && Initial(states[0]) && i < |steps| && steps[i] == InsertFan(x)
    requires x in states[|steps|].sessions && states[|steps|].sessions[x].Listening()
    ensures Registered(states[|steps|], x) <==> !Taken(states, steps, i, x)
  {
    var n := |steps| - 1;
    var s := states[n];
    if i == n {
      OwnSession(s, steps[n]);
    } else {
      PastInsertion(states[..n + 1], steps[..n], i, x);
      RunKeepsFansOwn(states[..n + 1], steps[..n]);
      ListenedBefore(s, steps[n], x);
      FanLostExactly(states[..n + 1], steps[..n], i, x);
      RegisteredAfter(s, steps[n], x);
      TakenStep(states, steps, i, x);
    }
  }

  /** Every listening session has registered its fan at some point of the run. */
  lemma {:induction false} ListenersHaveRegistered(states: seq<State>, steps: seq<Step>, x: nat)
    requires Run(states, steps) && Initial(states[0])
    requires x in states[|steps|].sessions && states[|steps|].sessions[x].Listening()
    ensures exists i :: 0 <= i < |steps| && steps[i] == InsertFan(x)
  {
    if steps != [] {
      var n := |steps| - 1;
      ListenedBefore(states[n], steps[n], x);
      if steps[n] != InsertFan(x) {
        ListenersHaveRegistered(states[..n + 1], steps[..n], x);
        var i :| 0 <= i < n && steps[..n][i] == InsertFan(x);
        assert steps[i] == InsertFan(x);
      }
    }
  }

  /** A session that is past its registration and has no fan never gets one again. */
  lemma {:induction false} LostForGood(states: seq<State>, steps: seq<Step>, k: nat, x: nat)
    requires Run(states, steps) && Initial(states[0]) && k <= |steps|
    requires x in states[k].sessions && !Early(states[k].sessions[x]) && !Registered(states[k], x)
    ensures x in states[|steps|].sessions && !Early(states[|steps|].sessions[x]) && !Registered(states[|steps|], x)
  {
    var n := |steps| - 1;
    if k <= n {
      LostForGood(states[..n + 1], steps[..n], k, x);
      RunKeepsFansOwn(states[..n + 1], steps[..n]);
      EarlyIsOver(states[n], steps[n], x);
      RegisteredAfter(states[n], steps[n], x);
    }
  }

  /** And no broadcast collected from then on is addressed to it. */
  lemma NeverAddressedAgain(states: seq<State>, steps: seq<Step>, k: nat, x: nat, i: nat)
    requires Run(states, steps) && Initial(states[0]) && k <= i < |steps|
    requires x in states[k].sessions && !Early(states[k].sessions[x]) && !Registered(states[k], x)
    requires steps[i].CollectJoined? || steps[i].CollectLeft?
    ensures x !in states[i + 1].sessions[steps[i].sid].Awaited()
  {
    LostForGood(states[..i + 1], steps[..i], k, x);
    RunKeepsFansOwn(states[..i + 1], steps[..i]);
    RegisteredIsFan(states[i], x);
    OwnSession(states[i], steps[i]);
  }
}
