/** The stale entry a reconnecting spoke keeps: its roster is not cleared (src/tun/spoke.rs:37-41). */
module RosterReconnect {
  import opened Net
  import opened HubIndex
  import opened RosterTypes
  import opened RosterProtocol
  import opened RosterConvergence
  import opened RosterLimits
  import opened RosterSecrecy

  /** The hidden spoke has left; the visible one is still there. */
  ghost predicate FirstGone(s: State, known: Roster) {
    && s.hub == HUB && s.sessions.Keys == {0, 1} && s.fans == map[Spoke(1).id := 0]
    && s.index == Index(map[Spoke(1).vips.v4 := Visitor()], map[Spoke(1).vips.v6 := Visitor()])
    && s.sessions[0].Entry() == Spoke(1) && !s.sessions[0].hidden
    && s.sessions[0].phase == Joining({0}) && s.sessions[0].fanQ == []
    && s.sessions[1].Entry() == Spoke(0) && s.sessions[1].phase.Ended? && s.sessions[1].roster == known
  }

  /** A hidden session is torn down without telling anyone. */
  lemma HiddenTaskEnds(s0: State, s: State, x: nat) returns (t: State)
    requires Reaches(s0, s) && x in s.sessions && s.sessions[x].hidden && s.sessions[x].phase.Pumping?
    ensures Reaches(s0, t)
    ensures t == State(s.hub, ReleaseIn(s.index, s.sessions[x].vips, x), s.fans - {s.sessions[x].id},
                       s.sessions[x := s.sessions[x].(phase := Ended)])
  {
    ReachesStep(s0, s, ReleaseVips(x));
    t := Next(s, ReleaseVips(x));
    ReachesStep(s0, t, DropFan(x));
    t := Next(t, DropFan(x));
    ReachesStep(s0, t, CollectLeft(x));
    t := Next(t, CollectLeft(x));
  }

  lemma LurkerReleased(index: Index)
    requires index == Index(map[Spoke(1).vips.v4 := Visitor(), Spoke(0).vips.v4 := Lurker()],
                            map[Spoke(1).vips.v6 := Visitor(), Spoke(0).vips.v6 := Lurker()])
    ensures ReleaseIn(index, Spoke(0).vips, 1)
            == Index(map[Spoke(1).vips.v4 := Visitor()], map[Spoke(1).vips.v6 := Visitor()])
  {
  }

  lemma HiddenLeaves(s0: State, s: State) returns (t: State)
    requires Reaches(s0, s) && HiddenBeside(s) && s.sessions[1].phase.Pumping?
    ensures Reaches(s0, t) && FirstGone(t, s.sessions[1].roster)
  {
    t := HiddenTaskEnds(s0, s, 1);
    assert s.sessions[1].vips == Spoke(0).vips && s.sessions[1].id == Spoke(0).id;
    LurkerReleased(s.index);
  }

  lemma VisiblePumps(s0: State, s: State, known: Roster) returns (t: State)
    requires Reaches(s0, s) && FirstGone(s, known)
    ensures Reaches(s0, t) && t.hub == HUB && t.sessions.Keys == {0, 1} && t.fans == s.fans && t.index == s.index
    ensures t.sessions[0] == s.sessions[0].(phase := Pumping, fanQ := t.sessions[0].fanQ) && t.sessions[1] == s.sessions[1]
  {
    ReachesStep(s0, s, SendJoined(0, 0));
    t := Next(s, SendJoined(0, 0));
    ReachesStep(s0, t, StartPump(0));
    t := Next(t, StartPump(0));
  }

  /** Both have left, and nobody is attached. */
  ghost predicate BothGone(s: State, known: Roster) {
    && s.hub == HUB && s.sessions.Keys == {0, 1} && s.fans == map[] && s.index == EMPTY
    && s.sessions[0].Entry() == Spoke(1) && s.sessions[0].phase.Ended?
    && s.sessions[1].Entry() == Spoke(0) && s.sessions[1].phase.Ended? && s.sessions[1].roster == known
  }

  lemma VisibleUnregisters(s0: State, s: State) returns (t: State)
    requires Reaches(s0, s) && s.hub == HUB && s.sessions.Keys == {0, 1} && s.fans == map[Spoke(1).id := 0]
    requires s.index == Index(map[Spoke(1).vips.v4 := Visitor()], map[Spoke(1).vips.v6 := Visitor()])
    requires s.sessions[0].Entry() == Spoke(1) && s.sessions[0].phase.Pumping?
    ensures Reaches(s0, t)
    ensures t == State(HUB, EMPTY, map[], s.sessions[0 := s.sessions[0].(phase := Unfanned)])
  {
    ReachesStep(s0, s, ReleaseVips(0));
    t := Next(s, ReleaseVips(0));
    ReachesStep(s0, t, DropFan(0));
    t := Next(t, DropFan(0));
  }

  lemma VisibleLeaves(s0: State, s: State, known: Roster) returns (t: State)
    requires Reaches(s0, s) && s.hub == HUB && s.sessions.Keys == {0, 1} && s.fans == map[Spoke(1).id := 0]
    requires s.index == Index(map[Spoke(1).vips.v4 := Visitor()], map[Spoke(1).vips.v6 := Visitor()])
    requires s.sessions[0].Entry() == Spoke(1) && !s.sessions[0].hidden && s.sessions[0].phase.Pumping?
    requires s.sessions[1].Entry() == Spoke(0) && s.sessions[1].phase.Ended? && s.sessions[1].roster == known
    ensures Reaches(s0, t) && BothGone(t, known)
  {
    t := VisibleUnregisters(s0, s);
    ReachesStep(s0, t, CollectLeft(0));
    t := Next(t, CollectLeft(0));
    ReachesStep(s0, t, Finish(0));
    t := Next(t, Finish(0));
  }

  /** The hidden spoke is back, with the roster it left with. */
  ghost predicate Back(s: State, known: Roster) {
    && s.hub == HUB && s.sessions.Keys == {0, 1, 2}
    && s.sessions[0].Entry() == Spoke(1) && s.sessions[0].phase.Ended?
    && s.sessions[1].Entry() == Spoke(0) && s.sessions[1].phase.Ended? && s.sessions[1].roster == known
    && s.sessions[2].Entry() == Spoke(0) && s.sessions[2].hidden && s.sessions[2].fanQ == []
    && s.sessions[2].roster == known[HUB.id := HUB.vips]
    && s.index == Index(map[Spoke(0).vips.v4 := Returned()], map[Spoke(0).vips.v6 := Returned()])
  }

  function Returned(): HubPeer {
    HubPeer(Spoke(0).id, 2, Spoke(0).vips, true)
  }

  lemma HiddenConnects(s0: State, s: State, known: Roster) returns (t: State)
    requires Reaches(s0, s) && BothGone(s, known) && Spoke(0).id !in known
    ensures Reaches(s0, t)
    ensures t == s.(sessions := s.sessions[2 := NewSession(HUB, Spoke(0).id, Spoke(0).vips, true, known)])
  {
    var accept := Accept(2, Spoke(0).id, Spoke(0).vips, true, known);
    ReachesStep(s0, s, accept);
    t := Next(s, accept);
  }

  lemma HiddenClaimsAgain(s0: State, s: State, known: Roster) returns (t: State)
    requires Reaches(s0, s) && s.index == EMPTY && forall q :: q in s.sessions ==> !s.sessions[q].Live()
    requires 2 in s.sessions && s.sessions[2] == NewSession(HUB, Spoke(0).id, Spoke(0).vips, true, known)
    ensures Reaches(s0, t)
    ensures t == s.(index := ClaimIn(EMPTY, Returned()), sessions := s.sessions[2 := s.sessions[2].(phase := Claimed)])
  {
    ReachesStep(s0, s, ClaimVips(2));
    t := Next(s, ClaimVips(2));
  }

  lemma HiddenReturns(s0: State, s: State, known: Roster) returns (t: State)
    requires Reaches(s0, s) && BothGone(s, known) && Spoke(0).id !in known
    ensures Reaches(s0, t) && Back(t, known) && t.sessions[2].phase.Fanned? && t.sessions[2].wire == []
  {
    t := HiddenConnects(s0, s, known);
    t := HiddenClaimsAgain(s0, t, known);
    ReachesStep(s0, t, InsertFan(2));
    t := Next(t, InsertFan(2));
  }

  lemma HiddenSnaps(s0: State, s: State, known: Roster) returns (t: State)
    requires Reaches(s0, s) && Back(s, known) && s.sessions[2].phase.Fanned? && s.sessions[2].wire == []
    ensures Reaches(s0, t) && Back(t, known) && t.sessions[2].phase.Snapped? && t.sessions[2].wire == [Snapshot([HUB])]
  {
    var snapshot := TakeSnapshot(2, []);
    assert Lists(s.index, []);
    ReachesStep(s0, s, snapshot);
    t := Next(s, snapshot);
    assert [HUB] + [] == [HUB];
  }

  lemma HubIsRead(own: EndpointId, roster: Roster)
    requires HUB.id in roster && roster[HUB.id] == HUB.vips && own != HUB.id
    ensures ApplyMsg(own, roster, Snapshot([HUB])) == roster
  {
    assert [HUB][..0] == [] && InsertAll(own, roster, []) == roster;
    assert InsertAll(own, roster, [HUB]) == roster[HUB.id := HUB.vips];
  }

  lemma HiddenReadsAgain(s0: State, s: State, known: Roster) returns (t: State)
    requires Reaches(s0, s) && Back(s, known) && s.sessions[2].phase.Snapped? && s.sessions[2].wire == [Snapshot([HUB])]
    ensures Reaches(s0, t) && Back(t, known) && t.sessions[2].phase.Pumping? && t.sessions[2].wire == []
  {
    ReachesStep(s0, s, CollectJoined(2));
    t := Next(s, CollectJoined(2));
    HubIsRead(t.sessions[2].id, t.sessions[2].roster);
    ReachesStep(s0, t, Read(2));
    t := Next(t, Read(2));
  }

  lemma BothLeave(s0: State) returns (t: State, known: Roster)
    requires s0 == State(HUB, EMPTY, map[], map[])
    ensures Reaches(s0, t) && BothGone(t, known) && Spoke(1).id in known && Spoke(0).id !in known
  {
    t := HiddenDialsIn(s0);
    known := t.sessions[1].roster;
    NotOnItsOwn(s0, t);
    assert t.sessions[1].id == Spoke(0).id;
    t := HiddenLeaves(s0, t);
    t := VisiblePumps(s0, t, known);
    t := VisibleLeaves(s0, t, known);
  }

  /**
   * A spoke learns of a peer, loses its hub, the peer leaves, and the spoke reconnects with the roster it had
   * (session 2 after session 1): every step within the hypotheses, every broadcast complete, every message read,
   * and the peer is still on its roster.
   */
  lemma ReconnectKeepsStalePeer(s0: State) returns (t: State, known: Roster)
    requires s0 == State(HUB, EMPTY, map[], map[])
    ensures Reaches(s0, t) && Back(t, known)
    ensures Settled(t) && Holds(t.index, 2) && t.sessions[2].Unread() == []
    ensures Spoke(1).id in t.sessions[2].roster && !RightAbout(t, t.sessions[2], Spoke(1).id)
  {
    t, known := BothLeave(s0);
    t := HiddenReturns(s0, t, known);
    t := HiddenSnaps(s0, t, known);
    t := HiddenReadsAgain(s0, t, known);
    PeerIsNotShown(t, known);
    assert t.sessions[2].wire == [];
  }

  lemma PeerIsNotShown(t: State, known: Roster)
    requires Back(t, known) && t.sessions[2].phase.Pumping? && Spoke(1).id in known
    ensures Settled(t) && Holds(t.index, 2) && !RightAbout(t, t.sessions[2], Spoke(1).id)
  {
    assert t.index.byV4[Spoke(0).vips.v4].session == 2;
    forall q | q in t.sessions && t.sessions[q].id == Spoke(1).id ensures !Holds(t.index, q) {
      assert q == 0;
    }
  }

  /** No spoke is on its own roster. */
  lemma NotOnItsOwn(s0: State, s: State)
    requires s0 == State(HUB, EMPTY, map[], map[]) && Reaches(s0, s) && 1 in s.sessions
    ensures s.sessions[1].id !in s.sessions[1].roster
  {
    var states, steps :| Leads(states, steps, s0, s);
    RunKeepsInv(states, steps);
    assert StartOk(s.hub, s.sessions[1]);
  }
}
