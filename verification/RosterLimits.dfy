/** What goes wrong in the roster protocol: outside the no-overlap hypothesis, and by deadlock inside all of them. */
module RosterLimits {
  import opened Net
  import opened HubIndex
  import opened RosterTypes
  import opened RosterProtocol
  import opened RosterConvergence
  import opened RosterLocks

  // ---------------------------------------------------------------- overlapping sessions of one peer

  /** An attached session that no broadcast reaches: its fan is not registered. */
  ghost predicate LostFan(s: State, x: nat) {
    && x in s.sessions && s.sessions[x].Listening()
    && s.sessions[x].id !in s.fans && x !in s.fans.Values
  }

  /** The first session's teardown spares the new entry and takes the new fan. */
  lemma TeardownTakesFan(s: State, first: nat, sid: nat)
    requires first in s.sessions && sid in s.sessions && first != sid && s.sessions[first].phase.Pumping?
    requires s.sessions[sid].Listening() && s.sessions[first].id == s.sessions[sid].id
    requires s.sessions[first].vips == s.sessions[sid].vips && Installed(s.index, PeerOf(s, sid))
    requires forall id :: id in s.fans && s.fans[id] == sid ==> id == s.sessions[sid].id
    ensures Enabled(s, ReleaseVips(first)) && Enabled(Next(s, ReleaseVips(first)), DropFan(first))
    ensures Next(Next(s, ReleaseVips(first)), DropFan(first)).index == s.index
    ensures LostFan(Next(Next(s, ReleaseVips(first)), DropFan(first)), sid)
    ensures Next(Next(s, ReleaseVips(first)), DropFan(first)).sessions[sid] == s.sessions[sid]
  {
  }

  /**
   * A peer reconnects before its first session is torn down. Every step is one the code takes, only
   * the claim breaks the no-overlap hypothesis, and in the end the new session owns both slots while
   * the first one's teardown has removed the new one's fan.
   */
  lemma ReconnectLosesFan(s: State, first: nat, sid: nat, known: Roster)
    returns (states: seq<State>, steps: seq<Step>)
    requires first in s.sessions && s.sessions[first].phase.Pumping? && sid !in s.sessions
    requires UsableVips(s.hub.vips, s.sessions[first].vips) && s.sessions[first].id != s.hub.id
    requires Installed(s.index, PeerOf(s, first)) && sid !in s.fans.Values && s.sessions[first].id !in known
    ensures Run(states, steps) && states[0] == s && |steps| == 5
    ensures forall i :: 0 <= i < 5 ==> (Allowed(states[i], steps[i]) <==> i != 1)
    ensures LostFan(states[5], sid) && Installed(states[5].index, PeerOf(states[5], sid))
  {
    var x := s.sessions[first];
    var accept := Accept(sid, x.id, x.vips, x.hidden, known);
    SuccessorListens(s, first, sid, known);
    var s1 := Next(s, accept);
    var s2 := Next(s1, ClaimVips(sid));
    var s3 := Next(s2, InsertFan(sid));
    TeardownTakesFan(s3, first, sid);
    var s4 := Next(s3, ReleaseVips(first));
    steps := [accept, ClaimVips(sid), InsertFan(sid), ReleaseVips(first), DropFan(first)];
    PlainStepIsAllowed(s2, InsertFan(sid));
    PlainStepIsAllowed(s3, ReleaseVips(first));
    PlainStepIsAllowed(s4, DropFan(first));
    states := [s, s1, s2, s3, s4, Next(s4, DropFan(first))];
    FiveSteps(states, steps);
  }

  lemma FiveSteps(states: seq<State>, steps: seq<Step>)
    requires |states| == 6 && |steps| == 5
    requires Enabled(states[0], steps[0]) && states[1] == Next(states[0], steps[0])
    requires Enabled(states[1], steps[1]) && states[2] == Next(states[1], steps[1])
    requires Enabled(states[2], steps[2]) && states[3] == Next(states[2], steps[2])
    requires Enabled(states[3], steps[3]) && states[4] == Next(states[3], steps[3])
    requires Enabled(states[4], steps[4]) && states[5] == Next(states[4], steps[4])
    ensures Run(states, steps)
  {
    forall i | 0 <= i < 5 ensures Enabled(states[i], steps[i]) && states[i + 1] == Next(states[i], steps[i]) {
      assert i == 0 || i == 1 || i == 2 || i == 3 || i == 4;
    }
  }

  lemma PlainStepIsAllowed(s: State, step: Step)
    requires step.InsertFan? || step.ReleaseVips? || step.DropFan?
    ensures Allowed(s, step)
  {
  }

  /** The successor claims the slots and registers its fan under the first session's feet. */
  lemma SuccessorListens(s: State, first: nat, sid: nat, known: Roster)
    requires first in s.sessions && s.sessions[first].phase.Pumping? && sid !in s.sessions
    requires UsableVips(s.hub.vips, s.sessions[first].vips)
    requires Installed(s.index, PeerOf(s, first)) && sid !in s.fans.Values
    ensures var x := s.sessions[first];
            var accept := Accept(sid, x.id, x.vips, x.hidden, known);
            && Enabled(s, accept) && Enabled(Next(s, accept), ClaimVips(sid))
            && !Allowed(Next(s, accept), ClaimVips(sid))
            && Enabled(Next(Next(s, accept), ClaimVips(sid)), InsertFan(sid))
            && var t := Next(Next(Next(s, accept), ClaimVips(sid)), InsertFan(sid));
               && first in t.sessions && sid in t.sessions && t.sessions[first] == x
               && t.sessions[sid].Listening() && t.sessions[sid].id == x.id && t.sessions[sid].vips == x.vips
               && Installed(t.index, PeerOf(t, sid))
               && forall id :: id in t.fans && t.fans[id] == sid ==> id == x.id
  {
    var x := s.sessions[first];
    var s1 := Next(s, Accept(sid, x.id, x.vips, x.hidden, known));
    var s2 := Next(s1, ClaimVips(sid));
    assert s1.sessions[first] == x && x.Live();
    assert s2.sessions[sid].phase.Claimed? && Installed(s2.index, PeerOf(s2, sid));
  }

  // ---------------------------------------------------------------- 33 spokes joining at once get there

  /** Reachable by enabled steps within the hypotheses. */
  ghost predicate Reaches(s: State, t: State) {
    exists states, steps :: Leads(states, steps, s, t)
  }

  ghost predicate Leads(states: seq<State>, steps: seq<Step>, s: State, t: State) {
    Run(states, steps) && AllAllowed(states, steps) && states[0] == s && states[|steps|] == t
  }

  lemma ReachesItself(s: State)
    ensures Reaches(s, s)
  {
    assert Leads([s], [], s, s);
  }

  lemma ReachesStep(s: State, t: State, step: Step)
    requires Reaches(s, t) && Enabled(t, step) && Allowed(t, step)
    ensures Reaches(s, Next(t, step))
  {
    var states, steps :| Leads(states, steps, s, t);
    assert Leads(states + [Next(t, step)], steps + [step], s, Next(t, step));
  }

  const HUB := RosterEntry(Vips(0xAC18_FFFF, 0xFD24_AC18_0000_0000_0000_0000_0000_FFFF), 0)

  /** The k-th spoke of the crowd. */
  function Spoke(k: nat): RosterEntry
    requires k < 100
  {
    RosterEntry(Vips(0xAC18_0000 + k, 0xFD24_AC18_0000_0000_0000_0000_0000_0000 + k), k + 1)
  }

  function Attached(k: nat): HubPeer
    requires k < 100
  {
    HubPeer(Spoke(k).id, k, Spoke(k).vips, false)
  }

  function CrowdIndex(k: nat): Index
    requires k <= 100
  {
    if k == 0 then EMPTY else ClaimIn(CrowdIndex(k - 1), Attached(k - 1))
  }

  lemma {:induction false} CrowdIndexHolds(k: nat)
    requires k <= 100
    ensures forall a :: a in CrowdIndex(k).byV4 <==> 0xAC18_0000 <= a < 0xAC18_0000 + k
    ensures forall j :: 0 <= j < k ==> CrowdIndex(k).byV4[0xAC18_0000 + j] == Attached(j)
    ensures forall a :: a in CrowdIndex(k).byV6 ==> a < 0xFD24_AC18_0000_0000_0000_0000_0000_0000 + k
  {
    if k > 0 {
      CrowdIndexHolds(k - 1);
    }
  }

  function Crowded(k: nat): (others: seq<RosterEntry>)
    requires k < 100
    ensures |others| == k && forall j :: 0 <= j < k ==> others[j] == Spoke(j)
  {
    seq(k, j requires 0 <= j < k => Spoke(j))
  }

  lemma CrowdIsListed(k: nat)
    requires k < 100
    ensures Lists(CrowdIndex(k), Crowded(k))
  {
    CrowdIndexHolds(k);
    var index, others := CrowdIndex(k), Crowded(k);
    forall a | a in index.byV4
      ensures RosterEntry(index.byV4[a].vips, index.byV4[a].id) in others
    {
      var j := a - 0xAC18_0000;
      assert index.byV4[0xAC18_0000 + j] == Attached(j) && others[j] == Spoke(j);
    }
    forall e | e in others ensures Visible(index, e) {
      var j :| 0 <= j < k && others[j] == e;
      assert index.byV4[0xAC18_0000 + j] == Attached(j);
    }
  }

  lemma NextSpokeIsFree(k: nat)
    requires k < 99
    ensures ClaimOk(CrowdIndex(k + 1), Attached(k))
  {
    CrowdIndexHolds(k);
  }

  /**
   * n spokes have connected and k of them claimed their addresses; the first has registered its fan
   * and taken its snapshot, but not yet announced itself; q messages wait for it.
   */
  ghost predicate Crowd(s: State, n: nat, k: nat, q: nat)
    requires 1 <= k <= n < 100
  {
    && s.hub == HUB && s.index == CrowdIndex(k)
    && (forall j :: j in s.sessions <==> 0 <= j < n)
    && (forall j :: 0 <= j < n ==> s.sessions[j].Entry() == Spoke(j) && !s.sessions[j].hidden)
    && s.sessions[0].phase.Snapped? && |s.sessions[0].fanQ| == q
    && 1 in s.fans && s.fans[1] == 0
  }

  lemma NextConnects(s: State, k: nat, q: nat)
    requires 1 <= k < 99 && Crowd(s, k, k, q)
    ensures var step := Accept(k, Spoke(k).id, Spoke(k).vips, false, map[]);
            Enabled(s, step) && Allowed(s, step) && Crowd(Next(s, step), k + 1, k, q)
            && Next(s, step).sessions[k].phase.Accepted?
  {
  }

  lemma NextClaims(s: State, k: nat, q: nat)
    requires 1 <= k < 99 && Crowd(s, k + 1, k, q) && s.sessions[k].phase.Accepted?
    ensures Enabled(s, ClaimVips(k)) && Allowed(s, ClaimVips(k))
    ensures Crowd(Next(s, ClaimVips(k)), k + 1, k + 1, q) && Next(s, ClaimVips(k)).sessions[k].phase.Claimed?
  {
    NextSpokeIsFree(k);
    forall j | j in s.sessions && s.sessions[j].id == s.sessions[k].id ensures j == k {
      assert s.sessions[j].Entry() == Spoke(j) && s.sessions[k].Entry() == Spoke(k);
    }
    assert s.sessions[k].Entry() == Spoke(k);
  }

  lemma NextRegisters(s: State, k: nat, q: nat)
    requires 1 <= k < 99 && Crowd(s, k + 1, k + 1, q) && s.sessions[k].phase.Claimed?
    ensures Enabled(s, InsertFan(k)) && Allowed(s, InsertFan(k))
    ensures Crowd(Next(s, InsertFan(k)), k + 1, k + 1, q) && Next(s, InsertFan(k)).sessions[k].phase.Fanned?
  {
    assert s.sessions[k].Entry() == Spoke(k);
  }

  lemma NextSnaps(s: State, k: nat, q: nat, others: seq<RosterEntry>)
    requires 1 <= k < 99 && Crowd(s, k + 1, k + 1, q) && s.sessions[k].phase.Fanned?
    requires Lists(CrowdIndex(k + 1), others) && |others| == k + 1
    ensures Enabled(s, TakeSnapshot(k, others)) && Allowed(s, TakeSnapshot(k, others))
    ensures Crowd(Next(s, TakeSnapshot(k, others)), k + 1, k + 1, q)
    ensures Next(s, TakeSnapshot(k, others)).sessions[k].phase.Snapped?
  {
  }

  lemma NextCollects(s: State, k: nat, q: nat)
    requires 1 <= k < 99 && Crowd(s, k + 1, k + 1, q) && s.sessions[k].phase.Snapped?
    ensures Enabled(s, CollectJoined(k)) && Allowed(s, CollectJoined(k))
    ensures Crowd(Next(s, CollectJoined(k)), k + 1, k + 1, q)
    ensures Next(s, CollectJoined(k)).sessions[k].phase.Joining? && 0 in Next(s, CollectJoined(k)).sessions[k].phase.to
  {
    assert s.fans[1] in s.fans.Values;
  }

  lemma NextTellsFirst(s: State, k: nat, q: nat)
    requires 1 <= k < 99 && Crowd(s, k + 1, k + 1, q) && q < FAN_SLOTS
    requires s.sessions[k].phase.Joining? && 0 in s.sessions[k].phase.to
    ensures Enabled(s, SendJoined(k, 0)) && Allowed(s, SendJoined(k, 0))
    ensures Crowd(Next(s, SendJoined(k, 0)), k + 1, k + 1, q + 1)
  {
  }

  lemma NextJoins(s0: State, s: State, k: nat, q: nat) returns (t: State)
    requires 1 <= k < 99 && q < FAN_SLOTS && Reaches(s0, s) && Crowd(s, k, k, q)
    ensures Reaches(s0, t) && Crowd(t, k + 1, k + 1, q + 1)
  {
    var accept := Accept(k, Spoke(k).id, Spoke(k).vips, false, map[]);
    NextConnects(s, k, q);
    ReachesStep(s0, s, accept);
    t := Next(s, accept);
    NextClaims(t, k, q);
    ReachesStep(s0, t, ClaimVips(k));
    t := Next(t, ClaimVips(k));
    NextRegisters(t, k, q);
    ReachesStep(s0, t, InsertFan(k));
    t := Next(t, InsertFan(k));
    t := NextAnnounces(s0, t, k, q);
  }

  lemma NextAnnounces(s0: State, s: State, k: nat, q: nat) returns (t: State)
    requires 1 <= k < 99 && q < FAN_SLOTS && Reaches(s0, s)
    requires Crowd(s, k + 1, k + 1, q) && s.sessions[k].phase.Fanned?
    ensures Reaches(s0, t) && Crowd(t, k + 1, k + 1, q + 1)
  {
    var others := Crowded(k + 1);
    CrowdIsListed(k + 1);
    NextSnaps(s, k, q, others);
    ReachesStep(s0, s, TakeSnapshot(k, others));
    t := Next(s, TakeSnapshot(k, others));
    NextCollects(t, k, q);
    ReachesStep(s0, t, CollectJoined(k));
    t := Next(t, CollectJoined(k));
    NextTellsFirst(t, k, q);
    ReachesStep(s0, t, SendJoined(k, 0));
    t := Next(t, SendJoined(k, 0));
  }

  lemma {:induction false} CrowdGathers(s0: State, s: State, k: nat) returns (t: State)
    requires 1 <= k <= FAN_SLOTS + 1 && Reaches(s0, s) && Crowd(s, k, k, k - 1)
    ensures Reaches(s0, t) && Crowd(t, FAN_SLOTS + 1, FAN_SLOTS + 1, FAN_SLOTS)
    decreases FAN_SLOTS + 1 - k
  {
    if k == FAN_SLOTS + 1 {
      t := s;
    } else {
      var more := NextJoins(s0, s, k, k - 1);
      t := CrowdGathers(s0, more, k + 1);
    }
  }

  lemma FirstClaims(s0: State) returns (t: State)
    requires s0 == State(HUB, EMPTY, map[], map[])
    ensures Reaches(s0, t)
    ensures t == State(HUB, CrowdIndex(1), map[], map[0 :=
              NewSession(HUB, 1, Spoke(0).vips, false, map[]).(phase := Claimed)])
  {
    var e := Spoke(0);
    ReachesItself(s0);
    var accept := Accept(0, e.id, e.vips, false, map[]);
    ReachesStep(s0, s0, accept);
    t := Next(s0, accept);
    assert CrowdIndex(0) == EMPTY;
    NextSpokeIsFree(0);
    ReachesStep(s0, t, ClaimVips(0));
    t := Next(t, ClaimVips(0));
  }

  lemma FirstSpoke(s0: State) returns (t: State)
    requires s0 == State(HUB, EMPTY, map[], map[])
    ensures Reaches(s0, t) && Crowd(t, 1, 1, 0)
  {
    t := FirstClaims(s0);
    assert t.sessions[0].phase.Claimed? && t.sessions[0].Entry() == Spoke(0);
    ReachesStep(s0, t, InsertFan(0));
    t := Next(t, InsertFan(0));
    CrowdIsListed(1);
    assert t.index == CrowdIndex(1);
    ReachesStep(s0, t, TakeSnapshot(0, Crowded(1)));
    t := Next(t, TakeSnapshot(0, Crowded(1)));
  }

  /**
   * Within every hypothesis of convergence the hub can lock up for good: 32 spokes announce
   * themselves between the first one's fan registration and its own Joined broadcast.
   */
  lemma HubCanLockUp(s0: State) returns (t: State)
    requires s0 == State(HUB, EMPTY, map[], map[])
    ensures Reaches(s0, t) && WaitSet(t, {0})
    ensures (forall j :: j in t.sessions <==> 0 <= j < 33) && |t.sessions[0].fanQ| == 32
  {
    var first := FirstSpoke(s0);
    var full := CrowdGathers(s0, first, 1);
    ReachesStep(s0, full, CollectJoined(0));
    t := Next(full, CollectJoined(0));
    assert full.fans[1] in full.fans.Values;
    SelfWaitIsWaitSet(t, 0);
  }

  /** A session waiting for room in its own full queue is a wait set of one. */
  lemma SelfWaitIsWaitSet(s: State, x: nat)
    requires x in s.sessions && s.sessions[x].phase.Joining? && x in s.sessions[x].phase.to
    requires |s.sessions[x].fanQ| >= FAN_SLOTS
    ensures WaitSet(s, {x})
  {
    assert x in s.sessions[x].phase.to * {x};
  }

  /** Two full sessions past their own sends that still owe each other: a wait set, and neither waits for itself. */
  lemma MutualIsWaitSet(s: State, x: nat, y: nat)
    requires x in s.sessions && y in s.sessions
    requires s.sessions[x].phase.Joining? && s.sessions[y].phase.Joining?
    requires |s.sessions[x].fanQ| >= FAN_SLOTS && |s.sessions[y].fanQ| >= FAN_SLOTS
    requires y in s.sessions[x].phase.to && x in s.sessions[y].phase.to
    requires x !in s.sessions[x].phase.to && y !in s.sessions[y].phase.to
    ensures WaitSet(s, {x, y}) && !WaitSet(s, {x}) && !WaitSet(s, {y})
  {
    assert y in s.sessions[x].phase.to * {x, y} && x in s.sessions[y].phase.to * {x, y};
    assert s.sessions[x].phase.to * {x} == {} && s.sessions[y].phase.to * {y} == {};
    assert !Waits(s, {x}, x) && !Waits(s, {y}, y);
  }

  // ---------------------------------------------------------------- a direct link that comes too early

  /** q leaves while x has not registered its fan: nobody tells x. */
  lemma LeavesUnheard(s: State, q: nat, x: nat)
    requires q in s.sessions && x in s.sessions && q != x && s.sessions[q].phase.Pumping? && !s.sessions[q].hidden
    requires x !in s.fans.Values
    ensures Enabled(s, ReleaseVips(q))
    ensures Enabled(Next(s, ReleaseVips(q)), DropFan(q))
    ensures Enabled(Next(Next(s, ReleaseVips(q)), DropFan(q)), CollectLeft(q))
    ensures var t := Next(Next(Next(s, ReleaseVips(q)), DropFan(q)), CollectLeft(q));
            && q in t.sessions && x in t.sessions && t.sessions[x] == s.sessions[x] && QuietSession(t.sessions[q], x)
  {
  }

  /**
   * A link that completes before the spoke's fan is registered can leave a loose entry: a peer that then leaves is on
   * the spoke's roster, and the hub has nothing more to tell it of that peer.
   */
  lemma EarlyLinkOutlivesPeer(s: State, q: nat, x: nat)
    requires q in s.sessions && x in s.sessions && q != x && s.sessions[q].phase.Pumping? && !s.sessions[q].hidden
    requires s.sessions[x].phase.Claimed? && x !in s.fans.Values
    requires s.sessions[q].vips.v4 != s.sessions[x].vips.v4 && s.sessions[q].vips.v6 != s.sessions[x].vips.v6
    ensures var link := DirectLink(x, s.sessions[q].id, s.sessions[q].vips);
            && Enabled(s, link)
            && var s1 := Next(s, link);
            && Enabled(s1, ReleaseVips(q)) && Enabled(Next(s1, ReleaseVips(q)), DropFan(q))
            && Enabled(Next(Next(s1, ReleaseVips(q)), DropFan(q)), CollectLeft(q))
            && var t := Next(Next(Next(s1, ReleaseVips(q)), DropFan(q)), CollectLeft(q));
            && x in t.sessions && s.sessions[q].id in t.sessions[x].roster
            && q in t.sessions && QuietSession(t.sessions[q], x)
  {
    LeavesUnheard(Next(s, DirectLink(x, s.sessions[q].id, s.sessions[q].vips)), q, x);
  }
}
