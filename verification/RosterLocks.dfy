/**
 * When the bounded fan-out queues lock the hub up (src/tun/hub.rs:113-119, 607-641; 32 slots,
 * src/tun/mod.rs:50), and exactly when they do not.
 */
module RosterLocks {
  import opened Net
  import opened HubIndex
  import opened RosterTypes
  import opened RosterProtocol
  import opened RosterConvergence

  // ---------------------------------------------------------------- what every run keeps

  ghost predicate QueuesBounded(s: State) {
    forall x :: x in s.sessions ==> |s.sessions[x].fanQ| <= FAN_SLOTS
  }

  ghost predicate TargetsKnown(s: State) {
    && s.fans.Values <= s.sessions.Keys
    && forall q :: q in s.sessions ==> s.sessions[q].Awaited() <= s.sessions.Keys
  }

  ghost predicate EarlyHearsNothing(s: State) {
    forall x :: x in s.sessions && Early(s.sessions[x]) ==> s.sessions[x].fanQ == []
  }

  ghost predicate Plumbed(s: State) {
    QueuesBounded(s) && TargetsKnown(s) && EarlyHearsNothing(s)
  }

  lemma StepKeepsQueues(s: State, step: Step)
    requires QueuesBounded(s) && EarlyHearsNothing(s) && Enabled(s, step)
    ensures QueuesBounded(Next(s, step)) && EarlyHearsNothing(Next(s, step))
  {
    StepIsLocal(s, step);
    var s' := Next(s, step);
    forall x | x in s'.sessions
      ensures |s'.sessions[x].fanQ| <= FAN_SLOTS && (Early(s'.sessions[x]) ==> s'.sessions[x].fanQ == [])
    {
      if x != step.sid {
        OtherSession(s, step, x);
      } else if !step.Accept? {
        OwnSession(s, step);
      }
    }
  }

  lemma StepKeepsTargetsKnown(s: State, step: Step)
    requires TargetsKnown(s) && Enabled(s, step)
    ensures TargetsKnown(Next(s, step))
  {
    StepIsLocal(s, step);
    var s' := Next(s, step);
    forall q | q in s'.sessions ensures s'.sessions[q].Awaited() <= s'.sessions.Keys {
      if q != step.sid {
        OtherSession(s, step, q);
      } else if !step.Accept? {
        OwnSession(s, step);
      }
    }
    FansKnown(s, step);
  }

  lemma FansKnown(s: State, step: Step)
    requires s.fans.Values <= s.sessions.Keys && Enabled(s, step)
    ensures Next(s, step).fans.Values <= Next(s, step).sessions.Keys
  {
    StepIsLocal(s, step);
    var s' := Next(s, step);
    forall t | t in s'.fans.Values ensures t in s'.sessions.Keys {
      var id :| id in s'.fans && s'.fans[id] == t;
      assert t == step.sid || (id in s.fans && s.fans[id] == t);
    }
  }

  lemma {:induction false} RunIsPlumbed(states: seq<State>, steps: seq<Step>)
    requires Run(states, steps) && Initial(states[0])
    ensures Plumbed(states[|steps|])
  {
    if steps != [] {
      var n := |steps| - 1;
      RunIsPlumbed(states[..n + 1], steps[..n]);
      StepKeepsQueues(states[n], steps[n]);
      StepKeepsTargetsKnown(states[n], steps[n]);
    }
  }

  // ---------------------------------------------------------------- closed wait sets

  /** Sessions that have announced themselves to everyone but a full queue of the same set. */
  ghost predicate WaitSet(s: State, w: set<nat>) {
    w != {} && forall x :: x in w ==> Waits(s, w, x)
  }

  ghost predicate Waits(s: State, w: set<nat>, x: nat) {
    && x in s.sessions && s.sessions[x].phase.Joining?
    && |s.sessions[x].fanQ| >= FAN_SLOTS && s.sessions[x].phase.to * w != {}
  }

  /** A wait set is there for ever: no step of any task takes a member out of it. */
  lemma StepKeepsWaitSet(s: State, step: Step, w: set<nat>)
    requires WaitSet(s, w) && Enabled(s, step)
    ensures WaitSet(Next(s, step), w)
  {
    forall x | x in w ensures Waits(Next(s, step), w, x) {
      assert Waits(s, w, x);
      var t :| t in s.sessions[x].phase.to * w;
      assert Waits(s, w, t);
      if x != step.sid {
        OtherSession(s, step, x);
      } else {
        OwnSession(s, step);
        assert t in Own(s, step).phase.to;
      }
      assert t in Next(s, step).sessions[x].phase.to * w;
    }
  }

  lemma WaitSetIsUnsettled(s: State, w: set<nat>)
    requires WaitSet(s, w)
    ensures !Settled(s)
  {
    var x :| x in w;
    assert Waits(s, w, x);
  }

  lemma {:induction false} WaitSetForEver(states: seq<State>, steps: seq<Step>, w: set<nat>)
    requires Run(states, steps) && WaitSet(states[0], w)
    ensures WaitSet(states[|steps|], w) && !Settled(states[|steps|])
  {
    if steps != [] {
      var n := |steps| - 1;
      WaitSetForEver(states[..n + 1], steps[..n], w);
      StepKeepsWaitSet(states[n], steps[n], w);
    }
    WaitSetIsUnsettled(states[|steps|], w);
  }

  /** A lock-up is the hub's: whatever has reached a spoke it can read at any time, which resolves nothing. */
  lemma SpokesReadOn(s: State, w: set<nat>, x: nat)
    requires x in s.sessions && s.sessions[x].wire != []
    ensures Enabled(s, Read(x)) && Next(s, Read(x)).sessions[x].wire == s.sessions[x].wire[1..]
    ensures WaitSet(s, w) ==> WaitSet(Next(s, Read(x)), w)
  {
    OwnSession(s, Read(x));
    if WaitSet(s, w) {
      StepKeepsWaitSet(s, Read(x), w);
    }
  }

  /** Whoever still has to send to a member of a wait set waits with it, whatever happens. */
  lemma {:induction false} WaitersWaitForEver(states: seq<State>, steps: seq<Step>, w: set<nat>, x: nat, q: nat)
    requires Run(states, steps) && WaitSet(states[0], w) && x in w
    requires q in states[0].sessions && x in states[0].sessions[q].Awaited()
    ensures q in states[|steps|].sessions && x in states[|steps|].sessions[q].Awaited()
  {
    if steps != [] {
      var n := |steps| - 1;
      WaitSetForEver(states[..n + 1], steps[..n], w);
      WaitersWaitForEver(states[..n + 1], steps[..n], w, x, q);
      assert Waits(states[n], w, x);
      StillAwaited(states[n], steps[n], x, q);
    }
  }

  lemma StillAwaited(s: State, step: Step, x: nat, q: nat)
    requires Enabled(s, step) && q in s.sessions && x in s.sessions[q].Awaited() && !CanSend(s, x)
    ensures q in Next(s, step).sessions && x in Next(s, step).sessions[q].Awaited()
  {
    if q == step.sid {
      OwnSession(s, step);
    } else {
      OtherSession(s, step, q);
    }
  }

  // ---------------------------------------------------------------- the hub's own work

  /** Steps the hub's tasks take by themselves: no spoke connects, leaves, reads or dials. */
  predicate TaskStep(step: Step) {
    !step.Accept? && !step.ClaimVips? && !step.ReleaseVips? && !step.Read? && !step.DirectLink?
  }

  /** The most steps a session can still take and cause, with n sessions about. */
  function Weight(x: Session, n: nat): nat {
    |x.fanQ| +
    match x.phase
    case Claimed => 2 * n + 6
    case Fanned => 2 * n + 5
    case Snapped => 2 * n + 4
    case Joining(to) => 2 * |to| + 2
    case Released => 2 * n + 5
    case Unfanned => 2 * n + 4
    case Leaving(to) => 2 * |to| + 2
    case _ => 0
  }

  ghost function WorkOf(s: State, xs: set<nat>): nat
    requires xs <= s.sessions.Keys
    decreases |xs|
  {
    if xs == {} then 0
    else
      var x :| x in xs;
      Weight(s.sessions[x], |s.sessions|) + WorkOf(s, xs - {x})
  }

  ghost function Work(s: State): nat {
    WorkOf(s, s.sessions.Keys)
  }

  lemma {:induction false} WorkPick(s: State, xs: set<nat>, x: nat)
    requires xs <= s.sessions.Keys && x in xs
    ensures WorkOf(s, xs) == Weight(s.sessions[x], |s.sessions|) + WorkOf(s, xs - {x})
    decreases |xs|
  {
    var y :| y in xs && WorkOf(s, xs) == Weight(s.sessions[y], |s.sessions|) + WorkOf(s, xs - {y});
    if y != x {
      WorkPick(s, xs - {y}, x);
      WorkPick(s, xs - {x}, y);
      assert xs - {y} - {x} == xs - {x} - {y};
    }
  }

  lemma {:induction false} WorkSame(s: State, s': State, xs: set<nat>)
    requires xs <= s.sessions.Keys && s'.sessions.Keys == s.sessions.Keys && |s'.sessions| == |s.sessions|
    requires forall x :: x in xs ==> s'.sessions[x] == s.sessions[x]
    ensures WorkOf(s', xs) == WorkOf(s, xs)
    decreases |xs|
  {
    if xs != {} {
      var x :| x in xs;
      WorkPick(s, xs, x);
      WorkPick(s', xs, x);
      WorkSame(s, s', xs - {x});
    }
  }

  lemma FewFans(s: State)
    requires TargetsKnown(s)
    ensures |s.fans.Values| <= |s.sessions|
  {
    SubsetIsSmaller(s.fans.Values, s.sessions.Keys);
  }

  lemma {:induction false} SubsetIsSmaller<T>(a: set<T>, b: set<T>)
    requires a <= b
    ensures |a| <= |b|
  {
    if x :| x in a {
      SubsetIsSmaller(a - {x}, b - {x});
    }
  }

  lemma CollectWeighsLess(s: State, step: Step)
    requires TargetsKnown(s) && Enabled(s, step) && (step.CollectJoined? || step.CollectLeft?)
    ensures Weight(Own(s, step), |s.sessions|) < Weight(s.sessions[step.sid], |s.sessions|)
  {
    FewFans(s);
  }

  lemma OwnWeighsLess(s: State, step: Step)
    requires TargetsKnown(s) && Enabled(s, step) && TaskStep(step)
    ensures Weight(Own(s, step), |s.sessions|) + (if step.SendJoined? || step.SendLeft? then 1 else 0)
            < Weight(s.sessions[step.sid], |s.sessions|)
  {
    if step.CollectJoined? || step.CollectLeft? {
      CollectWeighsLess(s, step);
    }
  }

  predicate Sends(step: Step) {
    step.SendJoined? || step.SendLeft?
  }

  lemma OwnGetsLighter(s: State, step: Step)
    requires TargetsKnown(s) && Enabled(s, step) && TaskStep(step)
    ensures step.sid in Next(s, step).sessions
    ensures Weight(Next(s, step).sessions[step.sid], |s.sessions|)
            + (if Sends(step) && step.target != step.sid then 1 else 0) < Weight(s.sessions[step.sid], |s.sessions|)
  {
    OwnWeighsLess(s, step);
    OwnSession(s, step);
  }

  lemma TargetGetsOneHeavier(s: State, step: Step)
    requires Enabled(s, step) && Sends(step) && step.target != step.sid
    ensures step.target in s.sessions && step.target in Next(s, step).sessions
    ensures Weight(Next(s, step).sessions[step.target], |s.sessions|) <= Weight(s.sessions[step.target], |s.sessions|) + 1
  {
    OtherSession(s, step, step.target);
  }

  /** Every step of the tasks uses up work, so no schedule of them goes on for ever. */
  lemma TaskStepDecreases(s: State, step: Step)
    requires TargetsKnown(s) && Enabled(s, step) && TaskStep(step)
    ensures Work(Next(s, step)) < Work(s)
  {
    var s', x, all := Next(s, step), step.sid, s.sessions.Keys;
    var others := if Sends(step) then all - {x} - {step.target} else all - {x};
    OthersUntouched(s, step, others);
    OwnGetsLighter(s, step);
    assert s'.sessions.Keys == all && |s'.sessions| == |s.sessions|;
    WorkPick(s, all, x);
    WorkPick(s', all, x);
    if Sends(step) && step.target != x {
      TargetGetsOneHeavier(s, step);
      WorkPick(s, all - {x}, step.target);
      WorkPick(s', all - {x}, step.target);
    } else {
      assert others == all - {x};
    }
  }

  lemma OthersUntouched(s: State, step: Step, xs: set<nat>)
    requires Enabled(s, step) && TaskStep(step) && xs <= s.sessions.Keys && step.sid !in xs
    requires Sends(step) ==> step.target !in xs
    ensures Next(s, step).sessions.Keys == s.sessions.Keys && WorkOf(Next(s, step), xs) == WorkOf(s, xs)
  {
    StepIsLocal(s, step);
    forall x | x in xs ensures Next(s, step).sessions[x] == s.sessions[x] {
      OtherSession(s, step, x);
    }
    WorkSame(s, Next(s, step), xs);
  }

  lemma {:induction false} ScheduleIsFinite(states: seq<State>, steps: seq<Step>)
    requires Run(states, steps) && Plumbed(states[0]) && forall i :: 0 <= i < |steps| ==> TaskStep(steps[i])
    ensures Plumbed(states[|steps|]) && |steps| + Work(states[|steps|]) <= Work(states[0])
  {
    if steps != [] {
      var n := |steps| - 1;
      ScheduleIsFinite(states[..n + 1], steps[..n]);
      StepKeepsQueues(states[n], steps[n]);
      StepKeepsTargetsKnown(states[n], steps[n]);
      TaskStepDecreases(states[n], steps[n]);
    }
  }

  // ---------------------------------------------------------------- no step left: settled or a wait set

  function Jam(s: State): set<nat> {
    set x | x in s.sessions && s.sessions[x].phase.Joining? && |s.sessions[x].fanQ| >= FAN_SLOTS
  }

  /** A session that can go on without anyone's queue. */
  predicate Ready(x: Session) {
    || x.phase.Claimed? || x.phase.Fanned? || x.phase.Snapped? || x.phase.Released? || x.phase.Unfanned?
    || x.phase == Joining({}) || x.phase == Leaving({})
  }

  lemma {:induction false} SetHasListing(es: set<RosterEntry>) returns (list: seq<RosterEntry>)
    ensures |list| == |es| && forall e :: e in list <==> e in es
  {
    list := [];
    if e :| e in es {
      list := SetHasListing(es - {e});
      list := list + [e];
    }
  }

  function VisibleAmong(index: Index, ks: set<Ip4>): set<RosterEntry> {
    set k | k in ks && k in index.byV4 && !index.byV4[k].hidden :: RosterEntry(index.byV4[k].vips, index.byV4[k].id)
  }

  lemma {:induction false} EntriesAreFew(index: Index, ks: set<Ip4>)
    ensures |VisibleAmong(index, ks)| <= |ks|
    decreases |ks|
  {
    if k :| k in ks {
      EntriesAreFew(index, ks - {k});
      var more := if k in index.byV4 then {RosterEntry(index.byV4[k].vips, index.byV4[k].id)} else {};
      SubsetIsSmaller(VisibleAmong(index, ks), VisibleAmong(index, ks - {k}) + more);
    }
  }

  /** Every index can be listed. */
  lemma IndexHasListing(index: Index) returns (others: seq<RosterEntry>)
    requires forall k :: k in index.byV4 ==> index.byV4[k].vips.v4 == k
    ensures Lists(index, others) && |others| <= |index.byV4|
  {
    var es := VisibleAmong(index, index.byV4.Keys);
    others := SetHasListing(es);
    EntriesAreFew(index, index.byV4.Keys);
    forall e | e in others ensures Visible(index, e) {
      var k :| k in index.byV4 && !index.byV4[k].hidden && e == RosterEntry(index.byV4[k].vips, index.byV4[k].id);
    }
    forall k | k in index.byV4 && !index.byV4[k].hidden
      ensures RosterEntry(index.byV4[k].vips, index.byV4[k].id) in others
    {
      assert RosterEntry(index.byV4[k].vips, index.byV4[k].id) in es;
    }
  }

  /** A snapshot lists each entry of the index at most once. */
  predicate Modest(s: State, step: Step) {
    step.TakeSnapshot? ==> |step.others| <= |s.index.byV4|
  }

  lemma ReadyGoesOn(s: State, x: nat) returns (step: Step)
    requires UnderOwnVips(s.index) && x in s.sessions && Ready(s.sessions[x])
    ensures TaskStep(step) && Enabled(s, step) && Modest(s, step) && step.sid == x && !Sends(step) && !step.Forward?
  {
    match s.sessions[x].phase
    case Claimed => step := InsertFan(x);
    case Fanned =>
      var others := IndexHasListing(s.index);
      step := TakeSnapshot(x, others);
    case Snapped => step := CollectJoined(x);
    case Joining(_) => step := StartPump(x);
    case Released => step := DropFan(x);
    case Unfanned => step := CollectLeft(x);
    case Leaving(_) => step := Finish(x);
  }

  /** A send, or a step of the session it would go to, unless that one is jammed itself. */
  lemma TargetGoesOn(s: State, q: nat, t: nat) returns (step: Step)
    requires UnderOwnVips(s.index) && TargetsKnown(s) && q in s.sessions && t in s.sessions[q].Awaited() && t !in Jam(s)
    ensures TaskStep(step) && Enabled(s, step)
  {
    assert t in s.sessions;
    if CanSend(s, t) {
      step := if s.sessions[q].phase.Joining? then SendJoined(q, t) else SendLeft(q, t);
    } else if s.sessions[t].phase.Pumping? {
      step := Forward(t);
    } else {
      step := ReadyGoesOn(s, t);
    }
  }

  lemma UnawaitedJam(s: State, x: nat, u: nat)
    requires x in Jam(s) && u in s.sessions[x].Awaited() && !Waits(s, Jam(s), x)
    ensures u !in Jam(s)
  {
    var both := s.sessions[x].phase.to * Jam(s);
    assert u in both <==> u in Jam(s);
  }

  /**
   * The converse of WaitSetForEver: in every reachable state that is not settled, either some task can go
   * on - and that uses up work - or the jammed sessions are a wait set.
   */
  lemma ProgressOrWaitSet(s: State) returns (step: Step)
    requires Plumbed(s) && UnderOwnVips(s.index) && !Settled(s) && !WaitSet(s, Jam(s))
    ensures TaskStep(step) && Enabled(s, step) && Work(Next(s, step)) < Work(s)
  {
    var q :| q in s.sessions && s.sessions[q].Live() && !s.sessions[q].phase.Pumping?;
    if Ready(s.sessions[q]) {
      step := ReadyGoesOn(s, q);
    } else {
      var t :| t in s.sessions[q].Awaited();
      if t !in Jam(s) {
        step := TargetGoesOn(s, q, t);
      } else {
        var x :| x in Jam(s) && !Waits(s, Jam(s), x);
        if Ready(s.sessions[x]) {
          step := ReadyGoesOn(s, x);
        } else {
          var u :| u in s.sessions[x].Awaited();
          UnawaitedJam(s, x, u);
          step := TargetGoesOn(s, x, u);
        }
      }
    }
    TaskStepDecreases(s, step);
  }

  lemma {:induction false} RunKeepsUnderOwnVips(states: seq<State>, steps: seq<Step>)
    requires Run(states, steps) && Initial(states[0])
    ensures UnderOwnVips(states[|steps|].index)
  {
    if steps != [] {
      var n := |steps| - 1;
      RunKeepsUnderOwnVips(states[..n + 1], steps[..n]);
      StepKeepsUnderOwnVips(states[n], steps[n]);
    }
  }

  lemma StepKeepsUnderOwnVips(s: State, step: Step)
    requires UnderOwnVips(s.index) && Enabled(s, step)
    ensures UnderOwnVips(Next(s, step).index)
  {
  }

  // ---------------------------------------------------------------- overfull sets: lost already

  /** It has its Joined still to collect or to send, itself among the receivers, before it reads its queue. */
  predicate Boarding(x: Session) {
    x.phase.Joining? || (!x.hidden && (x.phase.Fanned? || x.phase.Snapped?))
  }

  /** y will have to send to x before it pumps. */
  predicate Owes(s: State, y: nat, x: nat) {
    y in s.sessions && Boarding(s.sessions[y]) &&
    if s.sessions[y].phase.Joining? then x in s.sessions[y].phase.to else x in s.fans.Values
  }

  function Owing(s: State, w: set<nat>, x: nat): set<nat> {
    set y | y in w && Owes(s, y, x)
  }

  /** What x's queue must take before all of w pump, if none of them reads before. */
  function Load(s: State, w: set<nat>, x: nat): nat
    requires x in s.sessions
  {
    |s.sessions[x].fanQ| + |Owing(s, w, x)|
  }

  ghost predicate TooMuch(s: State, w: set<nat>, x: nat) {
    x in s.sessions && Boarding(s.sessions[x]) && Load(s, w, x) > FAN_SLOTS
  }

  /** Boarding sessions none of which can be the last of them to be served. */
  ghost predicate Overfull(s: State, w: set<nat>) {
    w != {} && forall x :: x in w ==> TooMuch(s, w, x)
  }

  ghost predicate Doomed(s: State) {
    exists w :: Overfull(s, w)
  }

  lemma OverfullIsUnsettled(s: State, w: set<nat>)
    requires Overfull(s, w)
    ensures !Settled(s)
  {
    var x :| x in w;
    assert TooMuch(s, w, x);
  }

  /** Without overlap nobody takes a boarding session's fan. */
  lemma FanOfBoardingStays(s: State, step: Step, x: nat)
    requires FansOk(s) && OneLive(s) && Enabled(s, step)
    requires x in s.sessions && Boarding(s.sessions[x]) && x in s.fans.Values
    ensures x in Next(s, step).fans.Values
  {
    var id := s.sessions[x].id;
    assert s.fans[id] == x;
    if step.InsertFan? || step.DropFan? {
      assert s.sessions[step.sid].Live() && s.sessions[x].Live();
    }
    assert Next(s, step).fans[id] == x;
  }

  lemma BoardingGoesOn(s: State, step: Step, y: nat)
    requires Enabled(s, step) && y in s.sessions && Boarding(s.sessions[y]) && step != StartPump(y)
    ensures y in Next(s, step).sessions && Boarding(Next(s, step).sessions[y])
  {
    if y == step.sid {
      OwnSession(s, step);
    } else {
      OtherSession(s, step, y);
    }
  }

  /** What is owed stays owed until it is sent. */
  lemma OwedUntilSent(s: State, step: Step, y: nat, x: nat)
    requires FansOk(s) && OneLive(s) && Enabled(s, step) && Owes(s, y, x)
    requires x in s.sessions && Boarding(s.sessions[x]) && step != SendJoined(y, x)
    ensures Owes(Next(s, step), y, x)
  {
    if step == StartPump(y) {
      assert false;
    }
    BoardingGoesOn(s, step, y);
    if y == step.sid {
      OwnSession(s, step);
    } else {
      OtherSession(s, step, y);
    }
    if !s.sessions[y].phase.Joining? {
      FanOfBoardingStays(s, step, x);
    }
  }

  /** The queue of a boarding session is not read, and a send makes it longer. */
  lemma BoardingQueue(s: State, step: Step, x: nat)
    requires Enabled(s, step) && x in s.sessions && Boarding(s.sessions[x])
    ensures x in Next(s, step).sessions
    ensures |Next(s, step).sessions[x].fanQ| >= |s.sessions[x].fanQ|
    ensures step.SendJoined? && step.target == x ==> |Next(s, step).sessions[x].fanQ| == |s.sessions[x].fanQ| + 1
  {
    if x == step.sid {
      OwnSession(s, step);
    } else {
      OtherSession(s, step, x);
    }
  }

  /** No step lightens the load of a boarding session, StartPump of another aside: that owes nothing. */
  lemma LoadStays(s: State, step: Step, w: set<nat>, x: nat)
    requires FansOk(s) && OneLive(s) && Enabled(s, step)
    requires x in s.sessions && Boarding(s.sessions[x])
    ensures x in Next(s, step).sessions && Load(Next(s, step), w, x) >= Load(s, w, x)
  {
    var s' := Next(s, step);
    BoardingQueue(s, step, x);
    var gone := if step.SendJoined? && step.target == x then {step.sid} else {};
    forall y | y in Owing(s, w, x) && y !in gone ensures y in Owing(s', w, x) {
      OwedUntilSent(s, step, y, x);
    }
    SubsetIsSmaller(Owing(s, w, x) - gone, Owing(s', w, x));
  }

  lemma OverfullStays(s: State, step: Step, w: set<nat>)
    requires FansOk(s) && OneLive(s) && Enabled(s, step) && Overfull(s, w)
    requires step.StartPump? ==> step.sid !in w
    ensures Overfull(Next(s, step), w)
  {
    forall x | x in w ensures TooMuch(Next(s, step), w, x) {
      assert TooMuch(s, w, x);
      LoadStays(s, step, w, x);
      BoardingGoesOn(s, step, x);
    }
  }

  /** A member that starts to pump leaves the rest overfull. */
  lemma OverfullWithout(s: State, w: set<nat>, y: nat)
    requires QueuesBounded(s) && Overfull(s, w) && y in w && s.sessions[y].phase == Joining({})
    ensures Overfull(s, w - {y})
  {
    assert TooMuch(s, w, y);
    assert Owing(s, w, y) != {};
    var z :| z in Owing(s, w, y);
    assert z in w - {y};
    forall x | x in w - {y} ensures TooMuch(s, w - {y}, x) {
      assert TooMuch(s, w, x);
      assert Owing(s, w - {y}, x) == Owing(s, w, x);
    }
  }

  /** Once an overfull set is there, one is there for ever. */
  lemma StepKeepsDoom(s: State, step: Step)
    requires QueuesBounded(s) && FansOk(s) && OneLive(s) && Enabled(s, step) && Doomed(s)
    ensures Doomed(Next(s, step))
  {
    var w :| Overfull(s, w);
    var rest := w;
    if step.StartPump? && step.sid in w {
      OverfullWithout(s, w, step.sid);
      rest := w - {step.sid};
    }
    OverfullStays(s, step, rest);
  }

  // ---------------------------------------------------------------- no overfull set: an order that serves all

  function Members(order: seq<nat>): set<nat> {
    set x | x in order
  }

  function BoardingSet(s: State): set<nat> {
    set x | x in s.sessions && Boarding(s.sessions[x])
  }

  /** The sessions of the order fit when served one after the other. */
  ghost predicate FitsInOrder(s: State, order: seq<nat>) {
    && (forall i, j :: 0 <= i < j < |order| ==> order[i] != order[j])
    && (forall k :: 0 <= k < |order| ==> order[k] in s.sessions && Load(s, Members(order[..k + 1]), order[k]) <= FAN_SLOTS)
  }

  lemma {:induction false} OrderExists(s: State, b: set<nat>) returns (order: seq<nat>)
    requires b <= BoardingSet(s) && forall w :: w <= b ==> !Overfull(s, w)
    ensures Members(order) == b && FitsInOrder(s, order)
    decreases |b|
  {
    if b == {} {
      order := [];
    } else {
      assert !Overfull(s, b);
      var last :| last in b && !TooMuch(s, b, last);
      var init := OrderExists(s, b - {last});
      order := init + [last];
      assert forall x :: x in order <==> x in init || x == last;
      assert forall x :: x in init <==> x in Members(init);
      assert Members(order) == b;
      forall k | 0 <= k < |order|
        ensures order[k] in s.sessions && Load(s, Members(order[..k + 1]), order[k]) <= FAN_SLOTS
      {
        if k < |init| {
          assert order[..k + 1] == init[..k + 1];
        } else {
          assert order[..k + 1] == order;
        }
      }
    }
  }

  /** An order of all boarding sessions that fits. */
  ghost predicate Served(s: State, order: seq<nat>) {
    Members(order) == BoardingSet(s) && FitsInOrder(s, order)
  }

  lemma FitsFrame(s: State, s': State, order: seq<nat>)
    requires FitsInOrder(s, order)
    requires forall x :: x in order ==> x in s'.sessions && s'.sessions[x].fanQ == s.sessions[x].fanQ
    requires forall x, y :: x in order && y in order && Owes(s', y, x) ==> Owes(s, y, x)
    ensures FitsInOrder(s', order)
  {
    forall k | 0 <= k < |order|
      ensures order[k] in s'.sessions && Load(s', Members(order[..k + 1]), order[k]) <= FAN_SLOTS
    {
      var w, x := Members(order[..k + 1]), order[k];
      assert forall y :: y in w ==> y in order;
      SubsetIsSmaller(Owing(s', w, x), Owing(s, w, x));
    }
  }

  /** Nothing about boarding sessions changes. */
  lemma ServedFrame(s: State, s': State, order: seq<nat>)
    requires Served(s, order) && s'.fans == s.fans && s'.sessions.Keys == s.sessions.Keys
    requires forall x :: x in s.sessions && (Boarding(s.sessions[x]) || Boarding(s'.sessions[x])) ==>
                           s'.sessions[x] == s.sessions[x]
    ensures Served(s', order)
  {
    assert BoardingSet(s') == BoardingSet(s);
    forall x | x in order ensures x in s'.sessions && s'.sessions[x] == s.sessions[x] {
      assert x in Members(order);
    }
    FitsFrame(s, s', order);
  }

  /** A session that is not boarding and will not be so takes a step of its own. */
  lemma BystanderKeepsServed(s: State, step: Step, order: seq<nat>)
    requires Served(s, order) && Enabled(s, step) && TaskStep(step) && !Sends(step)
    requires !step.InsertFan? && !step.DropFan? && !Boarding(s.sessions[step.sid])
    ensures Served(Next(s, step), order)
  {
    StepIsLocal(s, step);
    OwnSession(s, step);
    forall x | x in s.sessions && x != step.sid ensures Next(s, step).sessions[x] == s.sessions[x] {
      OtherSession(s, step, x);
    }
    ServedFrame(s, Next(s, step), order);
  }

  /** A boarding session takes its snapshot, or collects the fans it has owed a send all along. */
  lemma ApproachKeepsServed(s: State, step: Step, order: seq<nat>)
    requires Served(s, order) && Enabled(s, step) && (step.TakeSnapshot? || step.CollectJoined?)
    requires Boarding(s.sessions[step.sid])
    ensures Served(Next(s, step), order)
  {
    var s' := Next(s, step);
    StepIsLocal(s, step);
    OwnSession(s, step);
    forall x | x in s.sessions && x != step.sid ensures s'.sessions[x] == s.sessions[x] {
      OtherSession(s, step, x);
    }
    assert BoardingSet(s') == BoardingSet(s);
    forall x | x in order ensures x in s'.sessions && s'.sessions[x].fanQ == s.sessions[x].fanQ {
      assert x in Members(order);
    }
    FitsFrame(s, s', order);
  }

  lemma LoadMoves(s: State, s': State, w: set<nat>, x: nat, y: nat)
    requires x in s.sessions && x in s'.sessions && y in Owing(s, w, x)
    requires |s'.sessions[x].fanQ| <= |s.sessions[x].fanQ| + 1
    requires Owing(s', w, x) <= Owing(s, w, x) - {y}
    ensures Load(s', w, x) <= Load(s, w, x)
  {
    SubsetIsSmaller(Owing(s', w, x), Owing(s, w, x) - {y});
  }

  lemma LoadFalls(s: State, s': State, w: set<nat>, w': set<nat>, x: nat)
    requires x in s.sessions && x in s'.sessions && s'.sessions[x].fanQ == s.sessions[x].fanQ
    requires Owing(s', w', x) <= Owing(s, w, x)
    ensures Load(s', w', x) <= Load(s, w, x)
  {
    SubsetIsSmaller(Owing(s', w', x), Owing(s, w, x));
  }

  lemma SendOwesLess(s: State, q: nat, t: nat, y: nat, x: nat)
    requires Enabled(s, SendJoined(q, t)) && Owes(Next(s, SendJoined(q, t)), y, x)
    ensures Owes(s, y, x) && !(y == q && x == t)
  {
    StepIsLocal(s, SendJoined(q, t));
    if y == q {
      OwnSession(s, SendJoined(q, t));
    } else {
      OtherSession(s, SendJoined(q, t), y);
    }
  }

  lemma SendAndQueues(s: State, q: nat, t: nat, x: nat)
    requires Enabled(s, SendJoined(q, t)) && x in s.sessions
    ensures var s' := Next(s, SendJoined(q, t));
            && x in s'.sessions && (Boarding(s'.sessions[x]) <==> Boarding(s.sessions[x]))
            && |s'.sessions[x].fanQ| <= |s.sessions[x].fanQ| + 1
            && (x != t ==> s'.sessions[x].fanQ == s.sessions[x].fanQ)
  {
    if x == q {
      OwnSession(s, SendJoined(q, t));
    } else {
      OtherSession(s, SendJoined(q, t), x);
    }
  }

  /** The first of the order sends: what it puts into a queue it no longer owes. */
  lemma FirstSendKeepsServed(s: State, order: seq<nat>, t: nat)
    requires Served(s, order) && order != [] && Enabled(s, SendJoined(order[0], t))
    ensures Served(Next(s, SendJoined(order[0], t)), order)
  {
    var q, s' := order[0], Next(s, SendJoined(order[0], t));
    StepIsLocal(s, SendJoined(q, t));
    forall x | x in s.sessions ensures Boarding(s'.sessions[x]) <==> Boarding(s.sessions[x]) {
      SendAndQueues(s, q, t, x);
    }
    assert BoardingSet(s') == BoardingSet(s);
    forall k | 0 <= k < |order|
      ensures order[k] in s'.sessions && Load(s', Members(order[..k + 1]), order[k]) <= FAN_SLOTS
    {
      var w, x := Members(order[..k + 1]), order[k];
      SendAndQueues(s, q, t, x);
      forall y | y in Owing(s', w, x) ensures y in Owing(s, w, x) && !(y == q && x == t) {
        SendOwesLess(s, q, t, y, x);
      }
      if x == t {
        assert order[..k + 1][0] == q && q in w;
        assert q in Owing(s, w, x);
        LoadMoves(s, s', w, x, q);
      } else {
        LoadFalls(s, s', w, w, x);
      }
    }
  }

  /** The first of the order pumps and leaves it. */
  lemma FirstPumpsAndLeaves(s: State, order: seq<nat>)
    requires Served(s, order) && order != [] && Enabled(s, StartPump(order[0]))
    ensures Served(Next(s, StartPump(order[0])), order[1..])
  {
    var q, s' := order[0], Next(s, StartPump(order[0]));
    StepIsLocal(s, StartPump(q));
    OwnSession(s, StartPump(q));
    forall x | x in s.sessions && x != q ensures s'.sessions[x] == s.sessions[x] {
      OtherSession(s, StartPump(q), x);
    }
    assert forall x :: x in order <==> x == q || x in order[1..];
    assert forall x :: x in order <==> x in Members(order);
    assert BoardingSet(s') == BoardingSet(s) - {q};
    assert Members(order[1..]) == BoardingSet(s');
    forall k | 0 <= k < |order[1..]|
      ensures order[1..][k] in s'.sessions && Load(s', Members(order[1..][..k + 1]), order[1..][k]) <= FAN_SLOTS
    {
      var x, w, w' := order[k + 1], Members(order[..k + 2]), Members(order[1..][..k + 1]);
      assert order[1..][..k + 1] == order[..k + 2][1..];
      assert w' <= w;
      assert x != q && x in s.sessions;
      LoadFalls(s, s', w, w', x);
    }
  }

  lemma FirstIsBoarding(s: State, order: seq<nat>)
    requires Served(s, order) && order != []
    ensures order[0] in s.sessions && Boarding(s.sessions[order[0]])
  {
    assert order[0] in Members(order);
  }

  /** The order leaves room for what its first member still owes. */
  lemma RoomForFirst(s: State, order: seq<nat>, t: nat)
    requires Served(s, order) && order != [] && order[0] in s.sessions && s.sessions[order[0]].phase.Joining?
    requires t in s.sessions[order[0]].phase.to && t in s.sessions && Boarding(s.sessions[t])
    ensures |s.sessions[t].fanQ| < FAN_SLOTS
  {
    assert t in Members(order);
    var k :| 0 <= k < |order| && order[k] == t;
    var w := Members(order[..k + 1]);
    assert order[..k + 1][0] == order[0] && order[0] in w;
    assert order[0] in Owing(s, w, t);
    assert Load(s, w, t) <= FAN_SLOTS;
  }

  /** A full queue that the first of the order still has to send to is one that is being read. */
  lemma FullTargetPumps(s: State, order: seq<nat>, t: nat)
    requires Served(s, order) && order != [] && TargetsKnown(s) && order[0] in s.sessions
    requires s.sessions[order[0]].phase.Joining? && t in s.sessions[order[0]].phase.to && !CanSend(s, t)
    ensures t in s.sessions && s.sessions[t].Listening() && !Boarding(s.sessions[t]) && s.sessions[t].fanQ != []
  {
    assert t in s.sessions[order[0]].Awaited();
    if Boarding(s.sessions[t]) {
      RoomForFirst(s, order, t);
    }
  }

  /** While sessions board, the first of the order can be brought on. */
  lemma ServeFirst(s: State, order: seq<nat>) returns (step: Step, order': seq<nat>)
    requires Plumbed(s) && UnderOwnVips(s.index) && Served(s, order) && order != []
    requires forall x :: x in s.sessions && s.sessions[x].Listening() ==>
                           Boarding(s.sessions[x]) || s.sessions[x].phase.Pumping?
    ensures TaskStep(step) && Enabled(s, step) && Modest(s, step) && Served(Next(s, step), order')
  {
    var q := order[0];
    FirstIsBoarding(s, order);
    order' := order;
    if !s.sessions[q].phase.Joining? {
      step := ReadyGoesOn(s, q);
      ApproachKeepsServed(s, step, order);
    } else if t :| t in s.sessions[q].phase.to {
      if CanSend(s, t) {
        step := SendJoined(q, t);
        FirstSendKeepsServed(s, order, t);
      } else {
        FullTargetPumps(s, order, t);
        step := Forward(t);
        BystanderKeepsServed(s, step, order);
      }
    } else {
      step := StartPump(q);
      order' := order[1..];
      FirstPumpsAndLeaves(s, order);
    }
  }

  /** A newcomer's registered fan makes an order of one. */
  lemma AdmitNewcomer(s: State, x: nat) returns (order: seq<nat>)
    requires Plumbed(s) && x in s.sessions && s.sessions[x].phase.Claimed? && BoardingSet(s) == {}
    ensures Enabled(s, InsertFan(x)) && Served(Next(s, InsertFan(x)), order)
  {
    var s' := Next(s, InsertFan(x));
    StepIsLocal(s, InsertFan(x));
    OwnSession(s, InsertFan(x));
    forall y | y in s.sessions && y != x ensures !Boarding(s'.sessions[y]) {
      OtherSession(s, InsertFan(x), y);
      assert y !in BoardingSet(s);
    }
    if s.sessions[x].hidden {
      order := [];
      assert BoardingSet(s') == {};
    } else {
      order := [x];
      assert BoardingSet(s') == {x} == Members(order);
      assert Members(order[..1]) == {x};
      SubsetIsSmaller(Owing(s', {x}, x), {x});
      assert s'.sessions[x].fanQ == [];
    }
  }

  lemma NobodyBoards(s: State, step: Step)
    requires BoardingSet(s) == {} && Enabled(s, step) && TaskStep(step) && !step.InsertFan?
    ensures Served(Next(s, step), [])
  {
    StepIsLocal(s, step);
    forall x | x in s.sessions ensures !Boarding(Next(s, step).sessions[x]) {
      assert x !in BoardingSet(s);
      if x == step.sid {
        OwnSession(s, step);
      } else {
        OtherSession(s, step, x);
      }
    }
    assert BoardingSet(Next(s, step)) == {};
  }

  /** With nobody boarding, leavers and newcomers are brought on. */
  lemma ServeRest(s: State) returns (step: Step, order: seq<nat>)
    requires Plumbed(s) && UnderOwnVips(s.index) && BoardingSet(s) == {} && !Settled(s)
    requires forall x :: x in s.sessions && s.sessions[x].Listening() ==>
                           Boarding(s.sessions[x]) || s.sessions[x].phase.Pumping?
    ensures TaskStep(step) && Enabled(s, step) && Modest(s, step) && Served(Next(s, step), order)
  {
    var q :| q in s.sessions && s.sessions[q].Live() && !s.sessions[q].phase.Pumping?;
    assert q !in BoardingSet(s);
    if s.sessions[q].phase.Claimed? {
      step := InsertFan(q);
      order := AdmitNewcomer(s, q);
    } else {
      if Ready(s.sessions[q]) {
        step := ReadyGoesOn(s, q);
      } else {
        var t :| t in s.sessions[q].phase.to;
        assert t in s.sessions[q].Awaited() && t !in BoardingSet(s);
        step := if CanSend(s, t) then SendLeft(q, t) else Forward(t);
      }
      order := [];
      NobodyBoards(s, step);
    }
  }

  /** From a state with an order that fits, some task goes on to another such state. */
  lemma ServeOne(s: State, order: seq<nat>) returns (step: Step, order': seq<nat>)
    requires Plumbed(s) && UnderOwnVips(s.index) && Served(s, order) && !Settled(s)
    ensures TaskStep(step) && Enabled(s, step) && Modest(s, step) && Served(Next(s, step), order')
  {
    if h :| h in s.sessions && s.sessions[h].Listening() && !Boarding(s.sessions[h]) && !s.sessions[h].phase.Pumping? {
      step := ReadyGoesOn(s, h);
      order' := order;
      BystanderKeepsServed(s, step, order);
    } else if order != [] {
      step, order' := ServeFirst(s, order);
    } else {
      assert BoardingSet(s) == {};
      step, order' := ServeRest(s);
    }
  }

  // ---------------------------------------------------------------- exactly when the hub settles

  /** A run of task steps from s to t. */
  ghost predicate Schedule(states: seq<State>, steps: seq<Step>, s: State, t: State) {
    && Run(states, steps) && states[0] == s && states[|steps|] == t
    && forall i :: 0 <= i < |steps| ==> TaskStep(steps[i]) && Modest(states[i], steps[i])
  }

  lemma ScheduleStep(s: State, step: Step, states: seq<State>, steps: seq<Step>, t: State)
    requires Enabled(s, step) && TaskStep(step) && Modest(s, step) && Schedule(states, steps, Next(s, step), t)
    ensures Schedule([s] + states, [step] + steps, s, t)
  {
  }

  lemma {:induction false} OrderSettles(s: State, order: seq<nat>) returns (states: seq<State>, steps: seq<Step>)
    requires Plumbed(s) && UnderOwnVips(s.index) && Served(s, order)
    ensures |states| == |steps| + 1 && Schedule(states, steps, s, states[|steps|]) && Settled(states[|steps|])
    decreases Work(s)
  {
    if Settled(s) {
      states, steps := [s], [];
    } else {
      var step, order' := ServeOne(s, order);
      var s' := Next(s, step);
      TaskStepDecreases(s, step);
      StepKeepsQueues(s, step);
      StepKeepsTargetsKnown(s, step);
      StepKeepsUnderOwnVips(s, step);
      var states', steps' := OrderSettles(s', order');
      ScheduleStep(s, step, states', steps', states'[|steps'|]);
      states, steps := [s] + states', [step] + steps';
      assert states[|steps|] == states'[|steps'|];
    }
  }

  /** Where no overfull set is, the hub's tasks have a schedule that settles everything. */
  lemma UndoomedSettles(s: State) returns (states: seq<State>, steps: seq<Step>)
    requires Plumbed(s) && UnderOwnVips(s.index) && !Doomed(s)
    ensures |states| == |steps| + 1 && Schedule(states, steps, s, states[|steps|]) && Settled(states[|steps|])
  {
    var order := OrderExists(s, BoardingSet(s));
    states, steps := OrderSettles(s, order);
  }

  ghost predicate AllAlone(states: seq<State>, steps: seq<Step>)
    requires |states| == |steps| + 1
  {
    forall i :: 0 <= i < |steps| ==> Alone(states[i], steps[i])
  }

  lemma {:induction false} AloneKeepsFans(states: seq<State>, steps: seq<Step>)
    requires Run(states, steps) && AllAlone(states, steps) && FansOk(states[0]) && OneLive(states[0])
    ensures FansOk(states[|steps|]) && OneLive(states[|steps|])
  {
    if steps != [] {
      var n := |steps| - 1;
      AloneKeepsFans(states[..n + 1], steps[..n]);
      StepKeepsFans(states[n], steps[n]);
      StepKeepsOneLive(states[n], steps[n]);
    }
  }

  /** An overfull set means that no run without overlapping sessions, whoever comes and goes, ever settles. */
  lemma {:induction false} DoomedForEver(states: seq<State>, steps: seq<Step>)
    requires Run(states, steps) && AllAlone(states, steps)
    requires Plumbed(states[0]) && FansOk(states[0]) && OneLive(states[0]) && Doomed(states[0])
    ensures Plumbed(states[|steps|]) && Doomed(states[|steps|]) && !Settled(states[|steps|])
  {
    if steps != [] {
      var n := |steps| - 1;
      DoomedForEver(states[..n + 1], steps[..n]);
      AloneKeepsFans(states[..n + 1], steps[..n]);
      StepKeepsQueues(states[n], steps[n]);
      StepKeepsTargetsKnown(states[n], steps[n]);
      StepKeepsDoom(states[n], steps[n]);
    }
    var w :| Overfull(states[|steps|], w);
    OverfullIsUnsettled(states[|steps|], w);
  }

  ghost predicate Settles(s: State) {
    exists states, steps :: SettlingRun(states, steps, s)
  }

  ghost predicate SettlingRun(states: seq<State>, steps: seq<Step>, s: State) {
    Run(states, steps) && AllAlone(states, steps) && states[0] == s && Settled(states[|steps|])
  }

  /**
   * Exactly when the hub is lost: after any run without overlapping sessions, a settled state can still be
   * reached - by the hub's own tasks alone - if and only if there is no overfull set.
   */
  lemma LockUpExactly(states: seq<State>, steps: seq<Step>)
    requires Run(states, steps) && AllAlone(states, steps) && Initial(states[0])
    ensures Settles(states[|steps|]) <==> !Doomed(states[|steps|])
  {
    var s := states[|steps|];
    RunIsPlumbed(states, steps);
    RunKeepsUnderOwnVips(states, steps);
    AloneKeepsFans(states, steps);
    if Doomed(s) {
      if Settles(s) {
        var more, on :| SettlingRun(more, on, s);
        DoomedForEver(more, on);
      }
    } else {
      var more, on := UndoomedSettles(s);
      assert SettlingRun(more, on, s);
    }
  }
}
