/**
 * Hidden spokes: what the hub keeps from everyone, in every run whatever, and the one way their
 * addresses get into another spoke's roster all the same (docs/subsystems/tun.md).
 */
module RosterSecrecy {
  import opened Net
  import opened HubIndex
  import opened RosterTypes
  import opened RosterProtocol
  import opened RosterConvergence
  import opened RosterLimits

  ghost predicate VisibleEntry(s: State, e: RosterEntry) {
    e == s.hub || exists q :: q in s.sessions && !s.sessions[q].hidden && s.sessions[q].Entry() == e
  }

  ghost predicate Discreet(s: State, m: RosterMsg) {
    match m
    case Snapshot(entries) => forall e :: e in entries ==> VisibleEntry(s, e)
    case Joined(e) => VisibleEntry(s, e)
    case Left(e) => VisibleEntry(s, e)
  }

  /** Every message on its way to a spoke names the hub and visible sessions only. */
  ghost predicate DiscreetOk(s: State) {
    && (forall x :: x in s.sessions ==> forall m :: m in s.sessions[x].wire ==> Discreet(s, m))
    && (forall x :: x in s.sessions ==> forall m :: m in s.sessions[x].fanQ ==> Discreet(s, m))
  }

  ghost predicate KnownPeer(s: State, p: HubPeer) {
    p.session in s.sessions && PeerOf(s, p.session) == p
  }

  /** Every entry of the index is what some session claimed, of whatever age. */
  ghost predicate IndexKnown(s: State) {
    && (forall k :: k in s.index.byV4 ==> KnownPeer(s, s.index.byV4[k]))
    && (forall k :: k in s.index.byV6 ==> KnownPeer(s, s.index.byV6[k]))
  }

  lemma KnownStays(s: State, step: Step, p: HubPeer)
    requires Enabled(s, step) && KnownPeer(s, p)
    ensures KnownPeer(Next(s, step), p)
  {
    StepIsLocal(s, step);
  }

  lemma StepKeepsKnown(s: State, step: Step)
    requires IndexKnown(s) && Enabled(s, step)
    ensures IndexKnown(Next(s, step))
  {
    StepIsLocal(s, step);
    var s' := Next(s, step);
    forall k | k in s'.index.byV4 ensures KnownPeer(s', s'.index.byV4[k]) {
      if k in s.index.byV4 && s'.index.byV4[k] == s.index.byV4[k] {
        KnownStays(s, step, s.index.byV4[k]);
      }
    }
    forall k | k in s'.index.byV6 ensures KnownPeer(s', s'.index.byV6[k]) {
      if k in s.index.byV6 && s'.index.byV6[k] == s.index.byV6[k] {
        KnownStays(s, step, s.index.byV6[k]);
      }
    }
  }

  // ---------------------------------------------------------------- hidden sessions

  lemma VisibleStays(s: State, s': State, sid: nat, m: RosterMsg)
    requires Local(s, s', sid) && Discreet(s, m)
    ensures Discreet(s', m)
  {
    forall e | VisibleEntry(s, e) ensures VisibleEntry(s', e) {
      if e != s.hub {
        var q :| q in s.sessions && !s.sessions[q].hidden && s.sessions[q].Entry() == e;
        assert q in s'.sessions && s'.sessions[q].Entry() == e;
      }
    }
  }

  lemma SnapshotIsDiscreet(s: State, others: seq<RosterEntry>)
    requires IndexKnown(s) && Lists(s.index, others)
    ensures Discreet(s, Snapshot(Capped([s.hub] + others)))
  {
    forall e | e in others ensures VisibleEntry(s, e) {
      assert KnownPeer(s, s.index.byV4[e.vips.v4]);
      assert s.sessions[s.index.byV4[e.vips.v4].session].Entry() == e;
    }
  }

  lemma SentIsDiscreet(s: State, step: Step)
    requires HiddenNeverSends(s) && Enabled(s, step) && (step.SendJoined? || step.SendLeft?)
    ensures Discreet(s, Sent(s, step))
  {
    assert s.sessions[step.sid].Entry() == Sent(s, step).entry;
  }

  ghost predicate DiscreetSession(s: State, x: Session) {
    && (forall m :: m in x.wire ==> Discreet(s, m))
    && (forall m :: m in x.fanQ ==> Discreet(s, m))
  }

  lemma OwnIsDiscreet(s: State, step: Step)
    requires Enabled(s, step) && !step.Accept? && DiscreetSession(s, s.sessions[step.sid])
    requires step.TakeSnapshot? ==> Discreet(s, Snapshot(Capped([s.hub] + step.others)))
    ensures DiscreetSession(s, Own(s, step))
  {
  }

  lemma SessionStaysDiscreet(s: State, step: Step, x: nat)
    requires IndexKnown(s) && HiddenNeverSends(s) && DiscreetOk(s) && Enabled(s, step) && x in Next(s, step).sessions
    ensures DiscreetSession(s, Next(s, step).sessions[x])
  {
    if step.SendJoined? || step.SendLeft? {
      SentIsDiscreet(s, step);
    }
    if x != step.sid {
      StepIsLocal(s, step);
      OtherSession(s, step, x);
      assert DiscreetSession(s, s.sessions[x]);
    } else if !step.Accept? {
      if step.TakeSnapshot? {
        SnapshotIsDiscreet(s, step.others);
      }
      assert DiscreetSession(s, s.sessions[x]);
      OwnSession(s, step);
      OwnIsDiscreet(s, step);
    }
  }

  lemma StepKeepsDiscreet(s: State, step: Step)
    requires IndexKnown(s) && HiddenNeverSends(s) && DiscreetOk(s) && Enabled(s, step)
    ensures DiscreetOk(Next(s, step))
  {
    var s' := Next(s, step);
    StepIsLocal(s, step);
    forall x | x in s'.sessions ensures DiscreetSession(s', s'.sessions[x]) {
      SessionStaysDiscreet(s, step, x);
      forall m | m in s'.sessions[x].wire || m in s'.sessions[x].fanQ ensures Discreet(s', m) {
        VisibleStays(s, s', step.sid, m);
      }
    }
  }

  // ---------------------------------------------------------------- every run

  ghost predicate Secret(s: State) {
    IndexKnown(s) && HiddenNeverSends(s) && DiscreetOk(s)
  }

  /** No hypothesis at all: sessions may overlap, peers change their addresses, links come at any time. */
  lemma {:induction false} RunKeepsSecret(states: seq<State>, steps: seq<Step>)
    requires Run(states, steps) && Initial(states[0])
    ensures Secret(states[|steps|])
  {
    if steps != [] {
      var n := |steps| - 1;
      RunKeepsSecret(states[..n + 1], steps[..n]);
      StepKeepsKnown(states[n], steps[n]);
      StepKeepsHidden(states[n], steps[n]);
      StepKeepsDiscreet(states[n], steps[n]);
    }
  }

  /**
   * In every run: no Snapshot, Joined or Left on its way to a spoke names anyone but the hub and sessions
   * that are not hidden.
   */
  lemma HiddenIsNeverTold(states: seq<State>, steps: seq<Step>, x: nat, m: RosterMsg)
    requires Run(states, steps) && Initial(states[0])
    requires x in states[|steps|].sessions && m in states[|steps|].sessions[x].Unread()
    ensures m.Snapshot? ==> forall e :: e in m.entries ==> VisibleEntry(states[|steps|], e)
    ensures !m.Snapshot? ==> VisibleEntry(states[|steps|], m.entry)
  {
    RunKeepsSecret(states, steps);
    assert DiscreetSession(states[|steps|], states[|steps|].sessions[x]);
  }

  // ---------------------------------------------------------------- how a hidden peer gets known

  /** Every session this peer has had so far is hidden. */
  ghost predicate AlwaysHidden(s: State, id: EndpointId) {
    id != s.hub.id && forall q :: q in s.sessions && s.sessions[q].id == id ==> s.sessions[q].hidden
  }

  lemma {:induction false} UnlistedChangesNothing(own: EndpointId, roster: Roster, entries: seq<RosterEntry>, id: EndpointId)
    requires forall e :: e in entries ==> e.id != id
    ensures id in InsertAll(own, roster, entries) <==> id in roster
  {
    if entries != [] {
      assert forall e :: e in entries[..|entries| - 1] ==> e in entries;
      UnlistedChangesNothing(own, roster, entries[..|entries| - 1], id);
    }
  }

  /** Reading a discreet message tells nothing of a peer that has always been hidden. */
  lemma ReadingTellsNothing(s: State, x: Session, id: EndpointId)
    requires AlwaysHidden(s, id) && x.wire != [] && Discreet(s, x.wire[0])
    ensures id in AfterRead(x).roster <==> id in x.roster
  {
    forall e | VisibleEntry(s, e) ensures e.id != id {
    }
    if x.wire[0].Snapshot? {
      UnlistedChangesNothing(x.id, x.roster, x.wire[0].entries, id);
    }
  }

  predicate Links(step: Step, x: nat, id: EndpointId) {
    step.DirectLink? && step.sid == x && step.id == id
  }

  lemma StepTellsNothing(s: State, step: Step, x: nat, id: EndpointId)
    requires Secret(s) && AlwaysHidden(s, id) && Enabled(s, step) && x in s.sessions
    ensures id in Next(s, step).sessions[x].roster <==> id in s.sessions[x].roster || Links(step, x, id)
  {
    if x != step.sid {
      OtherSession(s, step, x);
    } else if !step.Accept? {
      OwnSession(s, step);
      if step.Read? {
        assert DiscreetSession(s, s.sessions[x]);
        ReadingTellsNothing(s, s.sessions[x], id);
      }
    }
  }

  lemma HiddenBefore(s: State, step: Step, id: EndpointId)
    requires Enabled(s, step) && AlwaysHidden(Next(s, step), id)
    ensures AlwaysHidden(s, id)
  {
    StepIsLocal(s, step);
    forall q | q in s.sessions && s.sessions[q].id == id ensures s.sessions[q].hidden {
      assert SameFixed(s.sessions[q], Next(s, step).sessions[q]);
    }
  }

  ghost predicate HasLinked(steps: seq<Step>, x: nat, id: EndpointId) {
    exists i :: 0 <= i < |steps| && Links(steps[i], x, id)
  }

  lemma HasLinkedStep(steps: seq<Step>, x: nat, id: EndpointId)
    requires steps != []
    ensures HasLinked(steps, x, id) <==> HasLinked(steps[..|steps| - 1], x, id) || Links(steps[|steps| - 1], x, id)
  {
    var n := |steps| - 1;
    if HasLinked(steps[..n], x, id) {
      var i :| 0 <= i < n && Links(steps[..n][i], x, id);
      assert Links(steps[i], x, id);
    }
    if HasLinked(steps, x, id) {
      var i :| 0 <= i < |steps| && Links(steps[i], x, id);
      if i < n {
        assert Links(steps[..n][i], x, id);
      }
    }
  }

  /** A step of a session that does not exist yet can only be its Accept. */
  lemma {:induction false} NotLinkedBefore(states: seq<State>, steps: seq<Step>, x: nat, id: EndpointId)
    requires Run(states, steps) && x !in states[|steps|].sessions
    ensures !HasLinked(steps, x, id)
  {
    if steps != [] {
      var n := |steps| - 1;
      StepIsLocal(states[n], steps[n]);
      NotLinkedBefore(states[..n + 1], steps[..n], x, id);
      HasLinkedStep(steps, x, id);
    }
  }

  /** The roster a session starts with. */
  predicate Knows(step: Step, x: nat, id: EndpointId) {
    step.Accept? && step.sid == x && id in step.known
  }

  /** The session's spoke brought this peer along on its roster. */
  ghost predicate HasKnown(steps: seq<Step>, x: nat, id: EndpointId) {
    exists i :: 0 <= i < |steps| && Knows(steps[i], x, id)
  }

  lemma HasKnownStep(steps: seq<Step>, x: nat, id: EndpointId)
    requires steps != []
    ensures HasKnown(steps, x, id) <==> HasKnown(steps[..|steps| - 1], x, id) || Knows(steps[|steps| - 1], x, id)
  {
    var n := |steps| - 1;
    if HasKnown(steps[..n], x, id) {
      var i :| 0 <= i < n && Knows(steps[..n][i], x, id);
      assert Knows(steps[i], x, id);
    }
    if HasKnown(steps, x, id) {
      var i :| 0 <= i < |steps| && Knows(steps[i], x, id);
      if i < n {
        assert Knows(steps[..n][i], x, id);
      }
    }
  }

  lemma {:induction false} NotKnownBefore(states: seq<State>, steps: seq<Step>, x: nat, id: EndpointId)
    requires Run(states, steps) && x !in states[|steps|].sessions
    ensures !HasKnown(steps, x, id)
  {
    if steps != [] {
      var n := |steps| - 1;
      StepIsLocal(states[n], steps[n]);
      NotKnownBefore(states[..n + 1], steps[..n], x, id);
      HasKnownStep(steps, x, id);
    }
  }

  ghost predicate HasMet(steps: seq<Step>, x: nat, id: EndpointId) {
    HasLinked(steps, x, id) || HasKnown(steps, x, id)
  }

  lemma HasMetStep(steps: seq<Step>, x: nat, id: EndpointId)
    requires steps != []
    ensures HasMet(steps, x, id)
            <==> HasMet(steps[..|steps| - 1], x, id) || Links(steps[|steps| - 1], x, id) || Knows(steps[|steps| - 1], x, id)
  {
    HasLinkedStep(steps, x, id);
    HasKnownStep(steps, x, id);
  }

  lemma NotMetBefore(states: seq<State>, steps: seq<Step>, x: nat, id: EndpointId)
    requires Run(states, steps) && x !in states[|steps|].sessions
    ensures !HasMet(steps, x, id)
  {
    NotLinkedBefore(states, steps, x, id);
    NotKnownBefore(states, steps, x, id);
  }

  lemma StepKnowsExactly(s: State, step: Step, x: nat, id: EndpointId, had: bool)
    requires Secret(s) && Enabled(s, step) && AlwaysHidden(Next(s, step), id) && x in Next(s, step).sessions
    requires if x in s.sessions then id in s.sessions[x].roster <==> had else !had
    ensures id in Next(s, step).sessions[x].roster <==> had || Links(step, x, id) || Knows(step, x, id)
  {
    HiddenBefore(s, step, id);
    if x in s.sessions {
      StepTellsNothing(s, step, x, id);
    }
  }

  /**
   * In every run, whatever overlaps: a spoke lists a peer that has only ever been hidden if and only if its roster
   * named that peer when it connected or it has completed a direct link with it since.
   */
  lemma {:induction false} HiddenKnownIffLinked(states: seq<State>, steps: seq<Step>, x: nat, id: EndpointId)
    requires Run(states, steps) && Initial(states[0]) && AlwaysHidden(states[|steps|], id)
    requires x in states[|steps|].sessions
    ensures id in states[|steps|].sessions[x].roster <==> HasMet(steps, x, id)
  {
    if steps != [] {
      var n := |steps| - 1;
      RunKeepsSecret(states[..n + 1], steps[..n]);
      HasMetStep(steps, x, id);
      if x in states[n].sessions {
        HiddenBefore(states[n], steps[n], id);
        HiddenKnownIffLinked(states[..n + 1], steps[..n], x, id);
      } else {
        NotMetBefore(states[..n + 1], steps[..n], x, id);
      }
      StepKnowsExactly(states[n], steps[n], x, id, HasMet(steps[..n], x, id));
    }
  }

  // ---------------------------------------------------------------- the run in which it happens

  /** One visible spoke attached and pumping; its entry is Spoke(1), its session 0. */
  ghost predicate OneVisible(s: State) {
    && s.hub == HUB && s.sessions.Keys == {0} && s.fans == map[Spoke(1).id := 0] && s.sessions[0].fanQ == []
    && s.index == Index(map[Spoke(1).vips.v4 := Visitor()], map[Spoke(1).vips.v6 := Visitor()])
    && s.sessions[0].Entry() == Spoke(1) && !s.sessions[0].hidden
    && s.sessions[0].roster == map[HUB.id := HUB.vips]
  }

  function Visitor(): HubPeer {
    HubPeer(Spoke(1).id, 0, Spoke(1).vips, false)
  }

  function Lurker(): HubPeer {
    HubPeer(Spoke(0).id, 1, Spoke(0).vips, true)
  }

  lemma VisibleClaims(s0: State) returns (t: State)
    requires s0 == State(HUB, EMPTY, map[], map[])
    ensures Reaches(s0, t) && OneVisible(t) && t.sessions[0].phase.Fanned?
  {
    var e := Spoke(1);
    var accept := Accept(0, e.id, e.vips, false, map[]);
    ReachesItself(s0);
    ReachesStep(s0, s0, accept);
    t := Next(s0, accept);
    ReachesStep(s0, t, ClaimVips(0));
    t := Next(t, ClaimVips(0));
    ReachesStep(s0, t, InsertFan(0));
    t := Next(t, InsertFan(0));
  }

  /** The listing both snapshots show: a hidden session beside the visitor does not appear. */
  lemma VisitorIsListed(index: Index)
    requires Spoke(1).vips.v4 in index.byV4 && index.byV4[Spoke(1).vips.v4] == Visitor()
    requires forall k :: k in index.byV4 && k != Spoke(1).vips.v4 ==> index.byV4[k].hidden
    ensures Lists(index, [Spoke(1)])
  {
    assert Visible(index, Spoke(1));
  }

  lemma VisibleAnnounces(s0: State, s: State) returns (t: State)
    requires Reaches(s0, s) && OneVisible(s) && s.sessions[0].phase.Fanned?
    ensures Reaches(s0, t) && OneVisible(t) && t.sessions[0].phase == Joining({0})
  {
    VisitorIsListed(s.index);
    var snapshot := TakeSnapshot(0, [Spoke(1)]);
    ReachesStep(s0, s, snapshot);
    t := Next(s, snapshot);
    ReachesStep(s0, t, CollectJoined(0));
    assert t.fans[Spoke(1).id] in t.fans.Values && t.fans.Values == {0};
    t := Next(t, CollectJoined(0));
  }

  /** A hidden spoke beside it, with entry Spoke(0) and session 1, past its snapshot. */
  ghost predicate HiddenBeside(s: State) {
    && s.hub == HUB && s.sessions.Keys == {0, 1}
    && s.fans == map[Spoke(1).id := 0, Spoke(0).id := 1]
    && s.index == Index(map[Spoke(1).vips.v4 := Visitor(), Spoke(0).vips.v4 := Lurker()],
                        map[Spoke(1).vips.v6 := Visitor(), Spoke(0).vips.v6 := Lurker()])
    && s.sessions[0].Entry() == Spoke(1) && !s.sessions[0].hidden
    && s.sessions[0].phase == Joining({0}) && s.sessions[0].fanQ == []
    && s.sessions[0].roster == map[HUB.id := HUB.vips]
    && s.sessions[1].Entry() == Spoke(0) && s.sessions[1].hidden
  }

  lemma LurkerClaimed(index: Index)
    requires index == Index(map[Spoke(1).vips.v4 := Visitor()], map[Spoke(1).vips.v6 := Visitor()])
    ensures ClaimIn(index, Lurker()) == Index(map[Spoke(1).vips.v4 := Visitor(), Spoke(0).vips.v4 := Lurker()],
                                              map[Spoke(1).vips.v6 := Visitor(), Spoke(0).vips.v6 := Lurker()])
    ensures ClaimOk(ClaimIn(index, Lurker()), Lurker())
  {
  }

  lemma HiddenClaims(s0: State, s: State) returns (t: State)
    requires Reaches(s0, s) && OneVisible(s)
    ensures Reaches(s0, t)
    ensures t == s.(index := ClaimIn(s.index, Lurker()), sessions := s.sessions[
              1 := NewSession(HUB, Spoke(0).id, Spoke(0).vips, true, map[]).(phase := Claimed)])
  {
    var accept := Accept(1, Spoke(0).id, Spoke(0).vips, true, map[]);
    ReachesStep(s0, s, accept);
    t := Next(s, accept);
    LurkerClaimed(s.index);
    ReachesStep(s0, t, ClaimVips(1));
    t := Next(t, ClaimVips(1));
  }

  lemma HiddenJoins(s0: State, s: State) returns (t: State)
    requires Reaches(s0, s) && OneVisible(s) && s.sessions[0].phase == Joining({0})
    ensures Reaches(s0, t) && HiddenBeside(t) && t.sessions[1].phase.Fanned? && t.sessions[1].wire == []
    ensures Lists(t.index, [Spoke(1)])
  {
    t := HiddenClaims(s0, s);
    LurkerClaimed(s.index);
    VisitorIsListed(t.index);
    ReachesStep(s0, t, InsertFan(1));
    t := Next(t, InsertFan(1));
  }

  lemma HiddenReads(s0: State, s: State) returns (t: State)
    requires Reaches(s0, s) && HiddenBeside(s) && s.sessions[1].phase.Fanned? && s.sessions[1].wire == []
    requires Lists(s.index, [Spoke(1)])
    ensures Reaches(s0, t) && HiddenBeside(t) && t.sessions[1].phase.Pumping? && Spoke(1).id in t.sessions[1].roster
  {
    var snapshot := TakeSnapshot(1, [Spoke(1)]);
    ReachesStep(s0, s, snapshot);
    t := Next(s, snapshot);
    assert [HUB] + [Spoke(1)] == [HUB, Spoke(1)];
    assert t.sessions[1].wire == [Snapshot([HUB, Spoke(1)])];
    ReachesStep(s0, t, CollectJoined(1));
    t := Next(t, CollectJoined(1));
    ReachesStep(s0, t, Read(1));
    t := Next(t, Read(1));
    assert [HUB, Spoke(1)][..1] == [HUB];
  }

  /**
   * The failing run: a spoke attaches, a hidden one beside it, which learns of the first from its snapshot. Its
   * id is the lower one, so it dials; the link completes and the visible spoke lists the hidden peer.
   */
  lemma HiddenDialsIn(s0: State) returns (t: State)
    requires s0 == State(HUB, EMPTY, map[], map[])
    ensures Reaches(s0, t) && HiddenBeside(t) && t.sessions[1].phase.Pumping?
    ensures Spoke(1).id in t.sessions[1].roster && t.sessions[1].id < Spoke(1).id
    ensures t.sessions[1].id !in t.sessions[0].roster
    ensures var link := DirectLink(0, t.sessions[1].id, t.sessions[1].vips);
            Enabled(t, link) && t.sessions[1].id in Next(t, link).sessions[0].roster
  {
    t := VisibleClaims(s0);
    t := VisibleAnnounces(s0, t);
    t := HiddenJoins(s0, t);
    t := HiddenReads(s0, t);
    assert t.sessions[0].id == Spoke(1).id && t.sessions[1].id == Spoke(0).id;
  }
}
