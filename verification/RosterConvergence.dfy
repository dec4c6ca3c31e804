/** The inductive invariant of the roster protocol, and convergence. */
module RosterConvergence {
  import opened Net
  import opened HubIndex
  import opened RosterTypes
  import opened RosterProtocol

  // ---------------------------------------------------------------- the invariant

  ghost predicate FansOk(s: State) {
    && (forall id :: id in s.fans ==>
          s.fans[id] in s.sessions && s.sessions[s.fans[id]].id == id && s.sessions[s.fans[id]].HasFan())
    && (forall x :: x in s.sessions && s.sessions[x].HasFan() ==>
          s.sessions[x].id in s.fans && s.fans[s.sessions[x].id] == x)
  }

  ghost predicate OneLive(s: State) {
    forall a, b | a in s.sessions && b in s.sessions && s.sessions[a].Live() && s.sessions[b].Live() ::
      s.sessions[a].id == s.sessions[b].id ==> a == b
  }

  function PeerOf(s: State, x: nat): HubPeer
    requires x in s.sessions
  {
    HubPeer(s.sessions[x].id, x, s.sessions[x].vips, s.sessions[x].hidden)
  }

  /** The index holds exactly the holding sessions, each under both its addresses. */
  ghost predicate IndexOk(s: State) {
    && (forall x :: x in s.sessions && s.sessions[x].Holding() ==> Installed(s.index, PeerOf(s, x)))
    && (forall k :: k in s.index.byV4 ==> HeldBy(s, s.index.byV4[k]) && s.index.byV4[k].vips.v4 == k)
    && (forall k :: k in s.index.byV6 ==> HeldBy(s, s.index.byV6[k]) && s.index.byV6[k].vips.v6 == k)
  }

  ghost predicate HeldBy(s: State, p: HubPeer) {
    p.session in s.sessions && s.sessions[p.session].Holding() && PeerOf(s, p.session) == p
  }

  /** Nothing is addressed to a session that has not registered its fan. */
  ghost predicate TargetsOk(s: State) {
    forall q, t :: q in s.sessions && t in s.sessions[q].Awaited() ==> t in s.sessions && !Early(s.sessions[t])
  }

  predicate Early(x: Session) {
    x.phase.Accepted? || x.phase.Refused? || x.phase.Claimed?
  }

  ghost predicate StartOk(hub: RosterEntry, x: Session) {
    && x.id != hub.id
    && (Early(x) ==> x.fanQ == [])
    && (Early(x) || x.phase.Fanned? ==> x.wire == [])
    && x.id !in x.roster
  }

  ghost predicate HubKnown(hub: RosterEntry, x: Session) {
    && hub.id in x.roster && x.roster[hub.id] == hub.vips
    && (forall m :: m in x.wire ==> KeepsHub(hub, m))
    && (forall m :: m in x.fanQ ==> KeepsHub(hub, m))
  }

  predicate KeepsHub(hub: RosterEntry, m: RosterMsg) {
    Says(m, hub.id) == Silence || Says(m, hub.id) == At(hub.vips)
  }

  ghost predicate EachSessionOk(s: State) {
    forall x :: x in s.sessions ==> StartOk(s.hub, s.sessions[x]) && HubKnown(s.hub, s.sessions[x])
  }

  /**
   * What x will finally believe about a peer: roster and unread messages together amount to v. Before
   * its snapshot, which will list v, it is enough that the queue does not contradict v.
   */
  ghost predicate Heard(x: Session, id: EndpointId, v: Option<Vips>) {
    var news := NewsOf(x.Unread(), id);
    if x.phase.Fanned? && v.Some? then news == Silence || news == At(v.value)
    else Told(news, x.roster, id) == v
  }

  /** Which entries of which session's spoke are loose: on its roster, and the hub has nothing more to tell of them. */
  type Loose = (nat, EndpointId) -> bool

  ghost predicate AnnouncedOk(s: State, loose: Loose) {
    forall x, q :: x in s.sessions && q in s.sessions ==>
      AnnouncedPairOk(s.sessions[x], x, s.sessions[q], loose(x, s.sessions[q].id))
  }

  ghost predicate AnnouncedPairOk(x: Session, sid: nat, q: Session, loose: bool) {
    x.Listening() && q.Announced() && x.id != q.id && sid !in q.Awaited() && !loose ==>
      Heard(x, q.id, Some(q.vips))
  }

  ghost predicate QuietOk(s: State, loose: Loose) {
    forall x, id :: x in s.sessions && s.sessions[x].Listening()
                    && id != s.sessions[x].id && id != s.hub.id && !loose(x, id) && Quiet(s, x, id) ==>
      Heard(s.sessions[x], id, None)
  }

  /** A loose entry is on the roster, no message about it is under way, and where its peer is announced it is wrong. */
  ghost predicate LooseEntry(s: State, x: nat, id: EndpointId)
    requires x in s.sessions
  {
    && id != s.hub.id && id in s.sessions[x].roster && NewsOf(s.sessions[x].Unread(), id) == Silence
    && forall q :: q in s.sessions && s.sessions[q].id == id && HasTold(s.sessions[q], x) ==>
                     !s.sessions[x].phase.Fanned? && s.sessions[q].vips != s.sessions[x].roster[id]
  }

  ghost predicate LooseOk(s: State, loose: Loose) {
    forall x, id :: x in s.sessions && s.sessions[x].Listening() && loose(x, id) ==> LooseEntry(s, x, id)
  }

  ghost predicate HiddenNeverSends(s: State) {
    forall q :: q in s.sessions && s.sessions[q].hidden ==> !s.sessions[q].phase.Joining? && !s.sessions[q].phase.Leaving?
  }

  /** The part of the invariant that does not depend on rosters. */
  ghost predicate Base(s: State) {
    FansOk(s) && OneLive(s) && IndexOk(s) && TargetsOk(s) && EachSessionOk(s) && HiddenNeverSends(s)
  }

  ghost predicate Inv(s: State, loose: Loose) {
    Base(s) && AnnouncedOk(s, loose) && QuietOk(s, loose) && LooseOk(s, loose)
  }

  // ---------------------------------------------------------------- the shape of a step

  /** Apart from fan-out queues, a step changes its own session only; ids and addresses never change. */
  ghost predicate Local(s: State, s': State, sid: nat) {
    && s'.hub == s.hub
    && s'.sessions.Keys == s.sessions.Keys + {sid}
    && sid in s'.sessions
    && (forall q :: q in s.sessions && q != sid ==> SameButQueue(s.sessions[q], s'.sessions[q]))
    && (sid in s.sessions ==> SameFixed(s.sessions[sid], s'.sessions[sid]))
  }

  predicate SameButQueue(x: Session, x': Session) {
    SameFixed(x, x') && x.phase == x'.phase && x.wire == x'.wire && x.roster == x'.roster
  }

  predicate SameFixed(x: Session, x': Session) {
    x.id == x'.id && x.vips == x'.vips && x.hidden == x'.hidden
  }

  lemma StepIsLocal(s: State, step: Step)
    requires Enabled(s, step)
    ensures Local(s, Next(s, step), step.sid)
  {
  }

  // ---------------------------------------------------------------- fans, liveness, targets

  lemma FansFrame(s: State, s': State, sid: nat)
    requires FansOk(s) && Local(s, s', sid) && s'.fans == s.fans
    requires s'.sessions[sid].HasFan() <==> (sid in s.sessions && s.sessions[sid].HasFan())
    ensures FansOk(s')
  {
  }

  lemma InsertKeepsFans(s: State, sid: nat)
    requires FansOk(s) && OneLive(s) && Enabled(s, InsertFan(sid))
    ensures FansOk(Next(s, InsertFan(sid)))
  {
    var s' := Next(s, InsertFan(sid));
    var id := s.sessions[sid].id;
    forall x | x in s'.sessions && s'.sessions[x].HasFan()
      ensures s'.sessions[x].id in s'.fans && s'.fans[s'.sessions[x].id] == x
    {
      assert s.sessions[x].Live() && s.sessions[sid].Live();
    }
  }

  lemma DropKeepsFans(s: State, sid: nat)
    requires FansOk(s) && OneLive(s) && Enabled(s, DropFan(sid))
    ensures FansOk(Next(s, DropFan(sid)))
  {
    var s' := Next(s, DropFan(sid));
    forall x | x in s'.sessions && s'.sessions[x].HasFan()
      ensures s'.sessions[x].id in s'.fans && s'.fans[s'.sessions[x].id] == x
    {
      assert s.sessions[x].Live() && s.sessions[sid].Live();
    }
  }

  lemma OtherStepsLeaveFans(s: State, step: Step)
    requires Enabled(s, step) && !step.InsertFan? && !step.DropFan?
    ensures Next(s, step).fans == s.fans
    ensures Next(s, step).sessions[step.sid].HasFan() <==> step.sid in s.sessions && s.sessions[step.sid].HasFan()
  {
  }

  lemma StepKeepsFans(s: State, step: Step)
    requires FansOk(s) && OneLive(s) && Enabled(s, step)
    ensures FansOk(Next(s, step))
  {
    if step.InsertFan? {
      InsertKeepsFans(s, step.sid);
    } else if step.DropFan? {
      DropKeepsFans(s, step.sid);
    } else {
      StepIsLocal(s, step);
      OtherStepsLeaveFans(s, step);
      FansFrame(s, Next(s, step), step.sid);
    }
  }

  lemma LiveByClaimOnly(s: State, step: Step)
    requires Enabled(s, step)
    ensures Next(s, step).sessions[step.sid].Live() ==>
              step.sid in s.sessions && (s.sessions[step.sid].Live() || step.ClaimVips?)
  {
  }

  lemma OneLiveFrame(s: State, s': State, sid: nat)
    requires OneLive(s) && Local(s, s', sid)
    requires s'.sessions[sid].Live() ==>
               sid in s.sessions
               && (s.sessions[sid].Live()
                   || forall q :: q in s.sessions && s.sessions[q].id == s.sessions[sid].id ==> !s.sessions[q].Live())
    ensures OneLive(s')
  {
  }

  lemma StepKeepsOneLive(s: State, step: Step)
    requires OneLive(s) && Enabled(s, step) && Alone(s, step)
    ensures OneLive(Next(s, step))
  {
    StepIsLocal(s, step);
    LiveByClaimOnly(s, step);
    OneLiveFrame(s, Next(s, step), step.sid);
  }

  lemma TargetsFrame(s: State, s': State, sid: nat, added: set<nat>)
    requires TargetsOk(s) && Local(s, s', sid)
    requires s'.sessions[sid].Awaited() <= added + (if sid in s.sessions then s.sessions[sid].Awaited() else {})
    requires sid in s.sessions && !Early(s.sessions[sid]) ==> !Early(s'.sessions[sid])
    requires forall t :: t in added ==> t in s'.sessions && !Early(s'.sessions[t])
    ensures TargetsOk(s')
  {
  }

  lemma AwaitedShrinks(s: State, step: Step)
    requires Enabled(s, step) && !step.CollectJoined? && !step.CollectLeft?
    ensures Next(s, step).sessions[step.sid].Awaited()
            <= if step.sid in s.sessions then s.sessions[step.sid].Awaited() else {}
    ensures step.sid in s.sessions && !Early(s.sessions[step.sid]) ==> !Early(Next(s, step).sessions[step.sid])
  {
  }

  lemma FansAreNotEarly(s: State)
    requires FansOk(s)
    ensures forall t :: t in s.fans.Values ==> t in s.sessions && s.sessions[t].HasFan()
  {
  }

  lemma CollectKeepsTargets(s: State, step: Step)
    requires TargetsOk(s) && Enabled(s, step) && (step.CollectJoined? || step.CollectLeft?)
    requires forall t :: t in s.fans.Values ==> t in s.sessions && s.sessions[t].HasFan()
    ensures TargetsOk(Next(s, step))
  {
    StepIsLocal(s, step);
    TargetsFrame(s, Next(s, step), step.sid, s.fans.Values);
  }

  lemma StepKeepsTargets(s: State, step: Step)
    requires TargetsOk(s) && FansOk(s) && Enabled(s, step)
    ensures TargetsOk(Next(s, step))
  {
    if step.CollectJoined? || step.CollectLeft? {
      FansAreNotEarly(s);
      CollectKeepsTargets(s, step);
    } else {
      StepIsLocal(s, step);
      AwaitedShrinks(s, step);
      TargetsFrame(s, Next(s, step), step.sid, {});
    }
  }

  // ---------------------------------------------------------------- the index

  lemma IndexFrame(s: State, s': State, sid: nat)
    requires IndexOk(s) && Local(s, s', sid) && s'.index == s.index
    requires s'.sessions[sid].Holding() <==> (sid in s.sessions && s.sessions[sid].Holding())
    ensures IndexOk(s')
  {
    forall k | k in s'.index.byV4 ensures HeldBy(s', s'.index.byV4[k]) {
      assert HeldBy(s, s.index.byV4[k]);
    }
    forall k | k in s'.index.byV6 ensures HeldBy(s', s'.index.byV6[k]) {
      assert HeldBy(s, s.index.byV6[k]);
    }
  }

  lemma ClaimKeepsIndex(s: State, sid: nat)
    requires IndexOk(s) && Enabled(s, ClaimVips(sid)) && Alone(s, ClaimVips(sid))
    ensures IndexOk(Next(s, ClaimVips(sid)))
  {
  }

  /** A release takes out exactly the two entries of its session. */
  lemma ReleaseRemovesOwn(s: State, sid: nat)
    requires IndexOk(s) && sid in s.sessions && s.sessions[sid].Holding()
    ensures ReleaseIn(s.index, s.sessions[sid].vips, sid)
            == Index(s.index.byV4 - {s.sessions[sid].vips.v4}, s.index.byV6 - {s.sessions[sid].vips.v6})
    ensures forall k :: k in s.index.byV4 && s.index.byV4[k].session == sid ==> k == s.sessions[sid].vips.v4
    ensures forall k :: k in s.index.byV6 && s.index.byV6[k].session == sid ==> k == s.sessions[sid].vips.v6
  {
    assert Installed(s.index, PeerOf(s, sid));
    assert forall k :: k in s.index.byV4 ==> HeldBy(s, s.index.byV4[k]);
    assert forall k :: k in s.index.byV6 ==> HeldBy(s, s.index.byV6[k]);
  }

  lemma ReleaseKeepsIndex(s: State, sid: nat)
    requires IndexOk(s) && Enabled(s, ReleaseVips(sid))
    ensures IndexOk(Next(s, ReleaseVips(sid)))
  {
    var s' := Next(s, ReleaseVips(sid));
    ReleaseRemovesOwn(s, sid);
    forall k | k in s'.index.byV4 ensures HeldBy(s', s'.index.byV4[k]) {
      assert HeldBy(s, s.index.byV4[k]);
    }
    forall k | k in s'.index.byV6 ensures HeldBy(s', s'.index.byV6[k]) {
      assert HeldBy(s, s.index.byV6[k]);
    }
    forall x | x in s'.sessions && s'.sessions[x].Holding() ensures Installed(s'.index, PeerOf(s', x)) {
      assert Installed(s.index, PeerOf(s, x)) && Installed(s.index, PeerOf(s, sid));
    }
  }

  lemma OtherStepsLeaveIndex(s: State, step: Step)
    requires Enabled(s, step) && !step.ClaimVips? && !step.ReleaseVips?
    ensures Next(s, step).index == s.index
    ensures Next(s, step).sessions[step.sid].Holding() <==> step.sid in s.sessions && s.sessions[step.sid].Holding()
  {
  }

  lemma StepKeepsIndex(s: State, step: Step)
    requires IndexOk(s) && Enabled(s, step) && Alone(s, step)
    ensures IndexOk(Next(s, step))
  {
    StepIsLocal(s, step);
    if step.ClaimVips? {
      ClaimKeepsIndex(s, step.sid);
    } else if step.ReleaseVips? {
      ReleaseKeepsIndex(s, step.sid);
    } else {
      OtherStepsLeaveIndex(s, step);
      IndexFrame(s, Next(s, step), step.sid);
    }
  }

  // ---------------------------------------------------------------- what one session hears

  lemma QueueNews(x: Session, m: RosterMsg, id: EndpointId)
    ensures NewsOf(x.(fanQ := x.fanQ + [m]).Unread(), id) == Then(NewsOf(x.Unread(), id), Says(m, id))
  {
    assert x.(fanQ := x.fanQ + [m]).Unread() == x.Unread() + [m];
    NewsSplit(x.Unread(), [m], id);
    NewsOfOne(m, id);
  }

  lemma ForwardKeepsUnread(x: Session)
    requires x.fanQ != []
    ensures x.(wire := x.wire + [x.fanQ[0]], fanQ := x.fanQ[1..]).Unread() == x.Unread()
  {
    assert x.fanQ == [x.fanQ[0]] + x.fanQ[1..];
  }

  lemma ReadKeepsTold(x: Session, id: EndpointId)
    requires x.wire != [] && id != x.id
    ensures Told(NewsOf(AfterRead(x).Unread(), id), AfterRead(x).roster, id) == Told(NewsOf(x.Unread(), id), x.roster, id)
  {
    assert x.Unread() == [x.wire[0]] + (x.wire[1..] + x.fanQ);
    ReadingKeepsTold(x.id, x.roster, x.wire[0], x.wire[1..] + x.fanQ, id);
  }

  lemma {:induction false} ListedOnly(entries: seq<RosterEntry>, id: EndpointId, vips: Vips)
    requires forall e :: e in entries && e.id == id ==> e.vips == vips
    ensures Listed(entries, id) == if exists e :: e in entries && e.id == id then At(vips) else Silence
  {
    if entries != [] {
      var init, last := entries[..|entries| - 1], entries[|entries| - 1];
      assert forall e :: e in entries <==> e in init || e == last;
      ListedOnly(init, id, vips);
    }
  }

  ghost predicate NobodyIsHub(s: State) {
    forall q :: q in s.sessions ==> s.sessions[q].id != s.hub.id
  }

  lemma SessionsAreNotHub(s: State)
    requires EachSessionOk(s)
    ensures NobodyIsHub(s)
  {
    forall q | q in s.sessions ensures s.sessions[q].id != s.hub.id {
      assert StartOk(s.hub, s.sessions[q]);
    }
  }

  /** A snapshot says of each peer what the index holds for it, and nothing of hidden ones. */
  lemma SnapshotSays(s: State, others: seq<RosterEntry>, id: EndpointId, vips: Vips)
    requires IndexOk(s) && OneLive(s) && Lists(s.index, others)
    requires NobodyIsHub(s) && (id == s.hub.id ==> vips == s.hub.vips)
    requires forall q :: q in s.sessions && s.sessions[q].Holding() && s.sessions[q].id == id ==> s.sessions[q].vips == vips
    ensures Listed([s.hub] + others, id) ==
            if id == s.hub.id || exists q :: q in s.sessions && s.sessions[q].Holding() && !s.sessions[q].hidden
                                             && s.sessions[q].id == id
            then At(vips) else Silence
  {
    forall e | e in others
      ensures exists q :: q in s.sessions && s.sessions[q].Holding() && !s.sessions[q].hidden && s.sessions[q].Entry() == e
    {
      assert HeldBy(s, s.index.byV4[e.vips.v4]);
      var q := s.index.byV4[e.vips.v4].session;
      assert s.sessions[q].Entry() == e;
    }
    forall q | q in s.sessions && s.sessions[q].Holding() && !s.sessions[q].hidden
      ensures s.sessions[q].Entry() in others
    {
      assert s.index.byV4[s.sessions[q].vips.v4] == PeerOf(s, q);
    }
    ListedOnly([s.hub] + others, id, vips);
    if id != s.hub.id {
      forall q | q in s.sessions && s.sessions[q].Holding() && !s.sessions[q].hidden && s.sessions[q].id == id
        ensures exists e :: e in [s.hub] + others && e.id == id
      {
        assert s.sessions[q].Entry() in [s.hub] + others;
      }
    } else {
      assert s.hub in [s.hub] + others;
    }
  }

  // ---------------------------------------------------------------- every session's start and the hub's entry

  /** The session a step delivers to, if the step is a send. */
  predicate DeliversTo(s: State, step: Step, x: nat)
  {
    (step.SendJoined? || step.SendLeft?) && step.target == x && x in s.sessions && s.sessions[x].Listening()
  }

  ghost function Sent(s: State, step: Step): RosterMsg
    requires (step.SendJoined? || step.SendLeft?) && step.sid in s.sessions
  {
    if step.SendJoined? then Joined(s.sessions[step.sid].Entry()) else Left(s.sessions[step.sid].Entry())
  }

  /** How a step changes a session other than its own: at most one message more in the queue. */
  lemma OtherSession(s: State, step: Step, x: nat)
    requires Enabled(s, step) && x in s.sessions && x != step.sid
    ensures Next(s, step).sessions[x]
            == if DeliversTo(s, step, x) then s.sessions[x].(fanQ := s.sessions[x].fanQ + [Sent(s, step)])
               else s.sessions[x]
  {
  }

  /** How a step changes its own session; a send may go to the sender's own queue. */
  lemma OwnSession(s: State, step: Step)
    requires Enabled(s, step) && !step.Accept?
    ensures Next(s, step).sessions[step.sid]
            == if DeliversTo(s, step, step.sid) then Own(s, step).(fanQ := s.sessions[step.sid].fanQ + [Sent(s, step)])
               else Own(s, step)
  {
  }

  /** Steps that change nothing of their own session but the phase. */
  predicate PhaseOnly(step: Step) {
    !step.Accept? && !step.TakeSnapshot? && !step.Forward? && !step.Read? && !step.DirectLink?
  }

  lemma PhaseOnlyOwn(s: State, step: Step)
    requires Enabled(s, step) && PhaseOnly(step)
    ensures Own(s, step) == s.sessions[step.sid].(phase := Own(s, step).phase)
    ensures Early(Own(s, step)) ==> Early(s.sessions[step.sid])
    ensures Own(s, step).phase.Fanned? ==> Early(s.sessions[step.sid])
  {
  }

  lemma SnapshotKeepsHub(s: State, others: seq<RosterEntry>)
    requires IndexOk(s) && OneLive(s) && NobodyIsHub(s) && Lists(s.index, others)
    ensures KeepsHub(s.hub, Snapshot([s.hub] + others))
  {
    SnapshotSays(s, others, s.hub.id, s.hub.vips);
  }

  lemma ReadKeepsSession(hub: RosterEntry, x: Session)
    requires StartOk(hub, x) && HubKnown(hub, x) && x.wire != []
    ensures StartOk(hub, AfterRead(x)) && HubKnown(hub, AfterRead(x))
  {
    var m := x.wire[0];
    assert KeepsHub(hub, m);
    if m.Snapshot? {
      ListedIsInserted(x.id, x.roster, m.entries, hub.id);
      NeverListsItself(x.id, x.roster, m.entries);
    }
  }

  /** What the snapshot step must not say of the hub; holds by SnapshotKeepsHub. */
  ghost predicate SnapshotFine(s: State, step: Step) {
    step.TakeSnapshot? ==> KeepsHub(s.hub, Snapshot(Capped([s.hub] + step.others)))
  }

  lemma OwnStaysOk(s: State, step: Step)
    requires Enabled(s, step) && Allowed(s, step) && !step.Accept? && SnapshotFine(s, step)
    requires StartOk(s.hub, s.sessions[step.sid]) && HubKnown(s.hub, s.sessions[step.sid])
    ensures StartOk(s.hub, Own(s, step)) && HubKnown(s.hub, Own(s, step))
  {
    if PhaseOnly(step) {
      PhaseOnlyOwn(s, step);
    } else if step.Read? {
      ReadKeepsSession(s.hub, s.sessions[step.sid]);
    }
  }

  lemma AcceptedIsOk(s: State, step: Step)
    requires Enabled(s, step) && Allowed(s, step) && step.Accept?
    ensures StartOk(s.hub, Next(s, step).sessions[step.sid]) && HubKnown(s.hub, Next(s, step).sessions[step.sid])
  {
  }

  lemma QueueKeepsSession(hub: RosterEntry, x: Session, m: RosterMsg)
    requires StartOk(hub, x) && HubKnown(hub, x) && !Early(x) && KeepsHub(hub, m)
    ensures StartOk(hub, x.(fanQ := x.fanQ + [m])) && HubKnown(hub, x.(fanQ := x.fanQ + [m]))
  {
  }

  lemma SentKeepsHub(s: State, step: Step)
    requires EachSessionOk(s) && (step.SendJoined? || step.SendLeft?) && step.sid in s.sessions
    ensures KeepsHub(s.hub, Sent(s, step))
  {
    assert StartOk(s.hub, s.sessions[step.sid]);
  }

  lemma StepKeepsOwnSession(s: State, step: Step)
    requires EachSessionOk(s) && Enabled(s, step) && Allowed(s, step) && !step.Accept? && SnapshotFine(s, step)
    ensures StartOk(s.hub, Next(s, step).sessions[step.sid]) && HubKnown(s.hub, Next(s, step).sessions[step.sid])
  {
    OwnSession(s, step);
    OwnStaysOk(s, step);
    if DeliversTo(s, step, step.sid) {
      SentKeepsHub(s, step);
      PhaseOnlyOwn(s, step);
      QueueKeepsSession(s.hub, Own(s, step), Sent(s, step));
    }
  }

  lemma StepKeepsOtherSession(s: State, step: Step, x: nat)
    requires EachSessionOk(s) && Enabled(s, step) && x in s.sessions && x != step.sid
    ensures StartOk(s.hub, Next(s, step).sessions[x]) && HubKnown(s.hub, Next(s, step).sessions[x])
  {
    OtherSession(s, step, x);
    if DeliversTo(s, step, x) {
      SentKeepsHub(s, step);
      QueueKeepsSession(s.hub, s.sessions[x], Sent(s, step));
    }
  }

  lemma StepKeepsSessions(s: State, step: Step)
    requires EachSessionOk(s) && Enabled(s, step) && Allowed(s, step) && SnapshotFine(s, step)
    ensures EachSessionOk(Next(s, step))
  {
    StepIsLocal(s, step);
    forall x | x in Next(s, step).sessions
      ensures StartOk(s.hub, Next(s, step).sessions[x]) && HubKnown(s.hub, Next(s, step).sessions[x])
    {
      if x != step.sid {
        StepKeepsOtherSession(s, step, x);
      } else if step.Accept? {
        AcceptedIsOk(s, step);
      } else {
        StepKeepsOwnSession(s, step);
      }
    }
  }

  // ---------------------------------------------------------------- loose entries

  /**
   * How one step changes whether id is a loose entry of session x. When the fan is registered, what the roster holds
   * of a peer the hub has nothing to tell of is loose; so is the entry of a direct link that does not settle.
   * A snapshot that lists the peer, or a message about it, puts that right.
   */
  ghost predicate LooseAfter(s: State, step: Step, x: nat, id: EndpointId, was: bool)
    requires Enabled(s, step)
  {
    if x !in s.sessions || id == s.hub.id then false
    else if step == InsertFan(x) then id in s.sessions[x].roster && Quiet(s, x, id)
    else if step.TakeSnapshot? && step.sid == x then was && Listed(Capped([s.hub] + step.others), id) == Silence
    else if step.DirectLink? && step.sid == x && step.id == id then !LinkSettles(s, x, id, step.vips)
    else was && !(DeliversTo(s, step, x) && s.sessions[step.sid].id == id)
  }

  /** Whether id is a loose entry of session x after a run. */
  ghost predicate LooseOf(states: seq<State>, steps: seq<Step>, x: nat, id: EndpointId)
    requires Run(states, steps)
    decreases |steps|
  {
    steps != [] &&
    var n := |steps| - 1;
    LooseAfter(states[n], steps[n], x, id, LooseOf(states[..n + 1], steps[..n], x, id))
  }

  ghost function LooseNow(states: seq<State>, steps: seq<Step>): Loose
    requires Run(states, steps)
  {
    (x: nat, id: EndpointId) requires true => LooseOf(states, steps, x, id)
  }

  // ---------------------------------------------------------------- what a listener hears of one peer

  /** The session's own record, its send to itself aside, through a step that brings in nothing new. */
  lemma OwnRecordHeard(s: State, step: Step, id: EndpointId, v: Option<Vips>)
    requires Enabled(s, step) && !step.Accept? && !step.TakeSnapshot? && !step.InsertFan?
    requires step.DirectLink? ==> step.id != id
    requires Own(s, step).Listening() && id != s.sessions[step.sid].id && Heard(s.sessions[step.sid], id, v)
    requires s.sessions[step.sid].phase.Fanned? ==> s.sessions[step.sid].wire == []
    ensures Heard(Own(s, step), id, v)
  {
    var x := s.sessions[step.sid];
    if step.Forward? {
      ForwardKeepsUnread(x);
    } else if step.Read? {
      ReadKeepsTold(x, id);
    } else if PhaseOnly(step) {
      PhaseOnlyOwn(s, step);
    }
  }

  /** Registering the fan: nothing is under way yet, and what the roster holds is only looked at where v is None. */
  lemma NewListenerHeard(s: State, x: nat, id: EndpointId, v: Option<Vips>)
    requires Enabled(s, InsertFan(x)) && s.sessions[x].Unread() == []
    requires v.None? ==> id !in s.sessions[x].roster
    ensures Heard(Own(s, InsertFan(x)), id, v)
  {
  }

  /** A direct link that settles. */
  lemma LinkHeard(s: State, step: Step, id: EndpointId, v: Option<Vips>)
    requires Enabled(s, step) && step.DirectLink? && step.id == id
    requires if NewsOf(s.sessions[step.sid].Unread(), id) != Silence then Heard(s.sessions[step.sid], id, v)
             else v == Some(step.vips) || (s.sessions[step.sid].phase.Fanned? && v.Some?)
    ensures Heard(Own(s, step), id, v)
  {
  }

  lemma OwnHeard(s: State, step: Step, id: EndpointId, v: Option<Vips>)
    requires Enabled(s, step) && !step.Accept?
    requires id != s.sessions[step.sid].id && Heard(Own(s, step), id, v)
    ensures Heard(Next(s, step).sessions[step.sid], id, v)
  {
    OwnSession(s, step);
    if DeliversTo(s, step, step.sid) {
      QueueNews(Own(s, step), Sent(s, step), id);
    }
  }

  /** A message about another peer, or none at all, changes nothing. */
  lemma OtherHeard(s: State, step: Step, x: nat, id: EndpointId, v: Option<Vips>)
    requires Enabled(s, step) && x in s.sessions && x != step.sid && Heard(s.sessions[x], id, v)
    requires DeliversTo(s, step, x) ==> s.sessions[step.sid].id != id
    ensures Heard(Next(s, step).sessions[x], id, v)
  {
    OtherSession(s, step, x);
    if DeliversTo(s, step, x) {
      QueueNews(s.sessions[x], Sent(s, step), id);
    }
  }

  /** Joined and Left settle what a listener will believe, whatever it heard before. */
  lemma DeliveredHeard(s: State, step: Step, x: nat)
    requires Enabled(s, step) && x in s.sessions && x != step.sid && DeliversTo(s, step, x)
    ensures Heard(Next(s, step).sessions[x], s.sessions[step.sid].id,
                  if step.SendJoined? then Some(s.sessions[step.sid].vips) else None)
  {
    OtherSession(s, step, x);
    QueueNews(s.sessions[x], Sent(s, step), s.sessions[step.sid].id);
  }

  lemma SnapshotHeard(s: State, step: Step, id: EndpointId, v: Option<Vips>)
    requires Enabled(s, step) && step.TakeSnapshot?
    requires Listed(Capped([s.hub] + step.others), id) == if v.Some? then At(v.value) else Silence
    requires StartOk(s.hub, s.sessions[step.sid]) && id != s.hub.id && Heard(s.sessions[step.sid], id, v)
    ensures Heard(Own(s, step), id, v)
  {
    var x, snap := s.sessions[step.sid], Snapshot(Capped([s.hub] + step.others));
    assert x.wire + [snap] == [snap] && x.Unread() == x.fanQ;
    NewsOfOne(snap, id);
    NewsSplit([snap], x.fanQ, id);
  }

  lemma ListenersAreFans(s: State, x: nat)
    requires FansOk(s) && x in s.sessions && s.sessions[x].Listening()
    ensures x in s.fans.Values
  {
    assert s.fans[s.sessions[x].id] == x;
  }

  // ---------------------------------------------------------------- announced peers

  /** A peer announced after its own step, and not still to tell x, was so before, unless the step told x. */
  lemma OwnAnnouncedBefore(s: State, step: Step, x: nat)
    requires Enabled(s, step) && !step.Accept? && x != step.sid
    requires Own(s, step).Announced() && x !in Own(s, step).Awaited() && x in s.fans.Values
    ensures s.sessions[step.sid].Announced()
    ensures x in s.sessions[step.sid].Awaited() ==> step == SendJoined(step.sid, x)
  {
  }

  lemma AnnouncedBefore(s: State, step: Step, x: nat, q: nat)
    requires FansOk(s) && Enabled(s, step) && x in s.sessions && x != q && q in Next(s, step).sessions
    requires HasTold(Next(s, step).sessions[q], x)
    requires s.sessions[x].Listening() || (step.InsertFan? && step.sid == x)
    ensures q in s.sessions && s.sessions[q].Announced()
    ensures x in s.sessions[q].Awaited() ==> step == SendJoined(q, x)
  {
    if q == step.sid && !step.Accept? {
      ListenersAreFans(s, x);
      OwnSession(s, step);
      OwnAnnouncedBefore(s, step, x);
    } else if q != step.sid {
      OtherSession(s, step, q);
    }
  }

  lemma AnnouncedIsListed(s: State, others: seq<RosterEntry>, q: nat)
    requires IndexOk(s) && OneLive(s) && NobodyIsHub(s) && Lists(s.index, others)
    requires q in s.sessions && s.sessions[q].Announced()
    ensures Listed([s.hub] + others, s.sessions[q].id) == At(s.sessions[q].vips)
  {
    SnapshotSays(s, others, s.sessions[q].id, s.sessions[q].vips);
  }

  /** Two sessions of one peer that are not quiet for x are the same. */
  lemma OneNotQuiet(s: State, x: nat, p: nat, q: nat)
    requires OneLive(s) && p in s.sessions && q in s.sessions && s.sessions[p].id == s.sessions[q].id
    requires !QuietSession(s.sessions[p], x) && !QuietSession(s.sessions[q], x)
    ensures p == q
  {
    assert s.sessions[p].Live() && s.sessions[q].Live();
  }

  /** A direct link with a peer that has told x, and that settles. */
  lemma LinkHearsAnnounced(s: State, step: Step, q: nat, was: bool)
    requires OneLive(s) && Enabled(s, step) && step.DirectLink? && q in s.sessions && s.sessions[q].id == step.id
    requires s.sessions[step.sid].Listening() && s.sessions[step.sid].id != step.id && HasTold(s.sessions[q], step.sid)
    requires AnnouncedPairOk(s.sessions[step.sid], step.sid, s.sessions[q], was)
    requires was ==> LooseEntry(s, step.sid, step.id)
    requires LinkSettles(s, step.sid, step.id, step.vips)
    ensures Heard(Own(s, step), step.id, Some(s.sessions[q].vips))
  {
    var x, id := s.sessions[step.sid], step.id;
    if NewsOf(x.Unread(), id) == Silence {
      var p :| p in s.sessions && s.sessions[p].id == id && !QuietSession(s.sessions[p], step.sid)
               && (x.phase.Fanned? || !HasTold(s.sessions[p], step.sid) || s.sessions[p].vips == step.vips);
      OneNotQuiet(s, step.sid, p, q);
    }
    LinkHeard(s, step, id, Some(s.sessions[q].vips));
  }

  /** The snapshot lists a peer that has told x. */
  lemma SnapshotHearsAnnounced(s: State, step: Step, q: nat, was: bool)
    requires IndexOk(s) && OneLive(s) && NobodyIsHub(s)
    requires Enabled(s, step) && step.TakeSnapshot? && |step.others| < ROSTER_MAX_ENTRIES
    requires StartOk(s.hub, s.sessions[step.sid])
    requires q in s.sessions && s.sessions[step.sid].id != s.sessions[q].id && HasTold(s.sessions[q], step.sid)
    requires AnnouncedPairOk(s.sessions[step.sid], step.sid, s.sessions[q], was)
    requires was ==> LooseEntry(s, step.sid, s.sessions[q].id)
    ensures Heard(Own(s, step), s.sessions[q].id, Some(s.sessions[q].vips))
  {
    AnnouncedIsListed(s, step.others, q);
    SnapshotHeard(s, step, s.sessions[q].id, Some(s.sessions[q].vips));
  }

  /** What x's own step brings in about a peer that has told x. */
  lemma OwnStepHearsAnnounced(s: State, step: Step, q: nat, was: bool)
    requires IndexOk(s) && OneLive(s) && NobodyIsHub(s) && Enabled(s, step) && Allowed(s, step) && !step.Accept?
    requires StartOk(s.hub, s.sessions[step.sid]) && q in s.sessions
    requires s.sessions[step.sid].Listening() || step.InsertFan?
    requires Own(s, step).Listening() && s.sessions[step.sid].id != s.sessions[q].id
    requires HasTold(s.sessions[q], step.sid)
    requires AnnouncedPairOk(s.sessions[step.sid], step.sid, s.sessions[q], was)
    requires s.sessions[step.sid].Listening() && was ==> LooseEntry(s, step.sid, s.sessions[q].id)
    requires !LooseAfter(s, step, step.sid, s.sessions[q].id, was)
    ensures Heard(Own(s, step), s.sessions[q].id, Some(s.sessions[q].vips))
  {
    var id, v := s.sessions[q].id, Some(s.sessions[q].vips);
    if step.InsertFan? {
      NewListenerHeard(s, step.sid, id, v);
    } else if step.TakeSnapshot? {
      SnapshotHearsAnnounced(s, step, q, was);
    } else if step.DirectLink? && step.id == id {
      LinkHearsAnnounced(s, step, q, was);
    } else {
      assert DeliversTo(s, step, step.sid) ==> s.sessions[step.sid].id != id;
      OwnRecordHeard(s, step, id, v);
    }
  }

  /** A send to a listener is about its sender, and two live sessions have different ids. */
  lemma SenderIsAnother(s: State, step: Step, q: nat)
    requires OneLive(s) && Enabled(s, step) && (step.SendJoined? || step.SendLeft?)
    requires q in s.sessions && s.sessions[q].Announced() && q != step.sid
    ensures s.sessions[step.sid].id != s.sessions[q].id
  {
  }

  /** Only registering its fan makes a session a listener. */
  lemma ListenedBefore(s: State, step: Step, x: nat)
    requires Enabled(s, step) && x in Next(s, step).sessions && Next(s, step).sessions[x].Listening()
    ensures x in s.sessions && (s.sessions[x].Listening() || (step.InsertFan? && step.sid == x))
  {
    if x == step.sid {
      if !step.Accept? {
        OwnSession(s, step);
      }
    } else {
      OtherSession(s, step, x);
    }
  }

  lemma OldSession(s: State, step: Step, x: nat)
    requires Enabled(s, step) && x in Next(s, step).sessions && !Next(s, step).sessions[x].phase.Accepted?
    ensures x in s.sessions && SameFixed(s.sessions[x], Next(s, step).sessions[x])
  {
    StepIsLocal(s, step);
  }

  lemma StepKeepsPair(s: State, step: Step, x: nat, q: nat, was: bool)
    requires IndexOk(s) && OneLive(s) && NobodyIsHub(s) && FansOk(s) && Enabled(s, step) && Allowed(s, step)
    requires x in s.sessions && q in s.sessions && x != q && s.sessions[x].id != s.sessions[q].id
    requires StartOk(s.hub, s.sessions[x]) && AnnouncedPairOk(s.sessions[x], x, s.sessions[q], was)
    requires s.sessions[x].Listening() && was ==> LooseEntry(s, x, s.sessions[q].id)
    requires Next(s, step).sessions[x].Listening() && HasTold(Next(s, step).sessions[q], x)
    requires !LooseAfter(s, step, x, s.sessions[q].id, was)
    ensures Heard(Next(s, step).sessions[x], s.sessions[q].id, Some(s.sessions[q].vips))
  {
    ListenedBefore(s, step, x);
    AnnouncedBefore(s, step, x, q);
    if x == step.sid {
      OwnSession(s, step);
      OwnStepHearsAnnounced(s, step, q, was);
      OwnHeard(s, step, s.sessions[q].id, Some(s.sessions[q].vips));
    } else if step == SendJoined(q, x) {
      DeliveredHeard(s, step, x);
    } else {
      OtherStepHearsAnnounced(s, step, x, q, was);
    }
  }

  lemma OtherStepHearsAnnounced(s: State, step: Step, x: nat, q: nat, was: bool)
    requires OneLive(s) && Enabled(s, step) && x in s.sessions && q in s.sessions && x != step.sid
    requires s.sessions[x].Listening() && s.sessions[q].id != s.sessions[x].id && HasTold(s.sessions[q], x)
    requires AnnouncedPairOk(s.sessions[x], x, s.sessions[q], was) && step != SendLeft(q, x)
    requires s.sessions[q].id != s.hub.id && !LooseAfter(s, step, x, s.sessions[q].id, was)
    ensures Heard(Next(s, step).sessions[x], s.sessions[q].id, Some(s.sessions[q].vips))
  {
    if (step.SendJoined? || step.SendLeft?) && q != step.sid {
      SenderIsAnother(s, step, q);
    }
    OtherHeard(s, step, x, s.sessions[q].id, Some(s.sessions[q].vips));
  }

  lemma StepKeepsAnnounced(s: State, step: Step, loose: Loose, loose': Loose)
    requires Base(s) && AnnouncedOk(s, loose) && LooseOk(s, loose) && Enabled(s, step) && Allowed(s, step)
    requires LooseStep(s, step, loose, loose')
    ensures AnnouncedOk(Next(s, step), loose')
  {
    SessionsAreNotHub(s);
    var s' := Next(s, step);
    forall x, q | x in s'.sessions && q in s'.sessions && s'.sessions[x].Listening()
                  && s'.sessions[q].Announced() && s'.sessions[x].id != s'.sessions[q].id
                  && x !in s'.sessions[q].Awaited() && !loose'(x, s'.sessions[q].id)
      ensures Heard(s'.sessions[x], s'.sessions[q].id, Some(s'.sessions[q].vips))
    {
      OldSession(s, step, x);
      OldSession(s, step, q);
      var was := loose(x, s.sessions[q].id);
      assert AnnouncedPairOk(s.sessions[x], x, s.sessions[q], was);
      assert StartOk(s.hub, s.sessions[x]);
      StepKeepsPair(s, step, x, q, was);
    }
  }

  ghost predicate LooseStep(s: State, step: Step, loose: Loose, loose': Loose)
    requires Enabled(s, step)
  {
    forall x, id :: loose'(x, id) <==> LooseAfter(s, step, x, id, loose(x, id))
  }

  // ---------------------------------------------------------------- quiet peers

  /** A session that a listener x finds quiet after the step was quiet before, unless the step told x it left. */
  lemma QuietSessionBefore(s: State, step: Step, x: nat)
    requires FansOk(s) && HiddenNeverSends(s) && Enabled(s, step) && !step.Accept?
    requires x in s.sessions && s.sessions[x].Listening()
    requires QuietSession(Own(s, step), x)
    ensures QuietSession(s.sessions[step.sid], x) || step == SendLeft(step.sid, x)
  {
    ListenersAreFans(s, x);
  }

  lemma QuietBefore(s: State, step: Step, x: nat, id: EndpointId)
    requires FansOk(s) && HiddenNeverSends(s) && Enabled(s, step)
    requires x in s.sessions && s.sessions[x].id != id && Quiet(Next(s, step), x, id)
    requires s.sessions[x].Listening() || (step.InsertFan? && step.sid == x)
    ensures Quiet(s, x, id) || (step == SendLeft(step.sid, x) && s.sessions[step.sid].id == id)
  {
    forall q | q in s.sessions && s.sessions[q].id == id && !(step == SendLeft(q, x))
      ensures QuietSession(s.sessions[q], x)
    {
      assert QuietSession(Next(s, step).sessions[q], x) by {
        StepIsLocal(s, step);
      }
      if q == step.sid {
        OwnSession(s, step);
        QuietSessionBefore(s, step, x);
      } else {
        OtherSession(s, step, q);
      }
    }
  }

  lemma QuietIsUnlisted(s: State, others: seq<RosterEntry>, x: nat, id: EndpointId)
    requires IndexOk(s) && OneLive(s) && NobodyIsHub(s) && Lists(s.index, others)
    requires id != s.hub.id && Quiet(s, x, id)
    ensures Listed([s.hub] + others, id) == Silence
  {
    assert forall q :: q in s.sessions && s.sessions[q].id == id ==> QuietSession(s.sessions[q], x);
    if q :| q in s.sessions && s.sessions[q].Holding() && s.sessions[q].id == id {
      SnapshotSays(s, others, id, s.sessions[q].vips);
    } else {
      SnapshotSays(s, others, id, s.hub.vips);
    }
  }

  lemma LinkHearsQuiet(s: State, step: Step, was: bool)
    requires Enabled(s, step) && step.DirectLink? && s.sessions[step.sid].Listening() && Quiet(s, step.sid, step.id)
    requires !was ==> Heard(s.sessions[step.sid], step.id, None)
    requires was ==> LooseEntry(s, step.sid, step.id)
    requires LinkSettles(s, step.sid, step.id, step.vips)
    ensures Heard(Own(s, step), step.id, None)
  {
    LinkHeard(s, step, step.id, None);
  }

  /** What x's own step brings in about a peer the hub has nothing to tell of. */
  lemma OwnStepHearsQuiet(s: State, step: Step, id: EndpointId, was: bool)
    requires IndexOk(s) && OneLive(s) && NobodyIsHub(s) && Enabled(s, step) && Allowed(s, step) && !step.Accept?
    requires StartOk(s.hub, s.sessions[step.sid])
    requires s.sessions[step.sid].Listening() || step.InsertFan?
    requires Own(s, step).Listening() && id != s.sessions[step.sid].id && id != s.hub.id && Quiet(s, step.sid, id)
    requires s.sessions[step.sid].Listening() && !was ==> Heard(s.sessions[step.sid], id, None)
    requires s.sessions[step.sid].Listening() && was ==> LooseEntry(s, step.sid, id)
    requires !LooseAfter(s, step, step.sid, id, was)
    ensures Heard(Own(s, step), id, None)
  {
    if step.InsertFan? {
      NewListenerHeard(s, step.sid, id, None);
    } else if step.TakeSnapshot? {
      QuietIsUnlisted(s, step.others, step.sid, id);
      SnapshotHeard(s, step, id, None);
    } else if step.DirectLink? && step.id == id {
      LinkHearsQuiet(s, step, was);
    } else {
      OwnRecordHeard(s, step, id, None);
    }
  }

  /** A send that reaches x from a session of this peer is its Left: a Joined would come from an announced one. */
  lemma QuietSenderLeaves(s: State, step: Step, x: nat, id: EndpointId)
    requires Enabled(s, step) && DeliversTo(s, step, x) && HiddenNeverSends(s) && Quiet(s, x, id)
    ensures s.sessions[step.sid].id != id
  {
  }

  lemma OtherStepHearsQuiet(s: State, step: Step, x: nat, id: EndpointId, was: bool)
    requires HiddenNeverSends(s) && Enabled(s, step) && x in s.sessions && x != step.sid && s.sessions[x].Listening()
    requires id != s.hub.id && !LooseAfter(s, step, x, id, was)
    requires if step == SendLeft(step.sid, x) && s.sessions[step.sid].id == id then true
             else Quiet(s, x, id) && (!was ==> Heard(s.sessions[x], id, None))
    ensures Heard(Next(s, step).sessions[x], id, None)
  {
    if step == SendLeft(step.sid, x) && s.sessions[step.sid].id == id {
      DeliveredHeard(s, step, x);
    } else {
      if DeliversTo(s, step, x) {
        QuietSenderLeaves(s, step, x, id);
      }
      OtherHeard(s, step, x, id, None);
    }
  }

  lemma ListenerStaysQuiet(s: State, step: Step, x: nat, id: EndpointId, was: bool)
    requires IndexOk(s) && OneLive(s) && NobodyIsHub(s) && FansOk(s) && HiddenNeverSends(s)
    requires Enabled(s, step) && Allowed(s, step) && x in s.sessions && StartOk(s.hub, s.sessions[x])
    requires s.sessions[x].Listening() || (step.InsertFan? && step.sid == x)
    requires x in Next(s, step).sessions && Next(s, step).sessions[x].Listening()
    requires id != s.sessions[x].id && id != s.hub.id && Quiet(Next(s, step), x, id)
    requires s.sessions[x].Listening() && !was && Quiet(s, x, id) ==> Heard(s.sessions[x], id, None)
    requires s.sessions[x].Listening() && was ==> LooseEntry(s, x, id)
    requires !LooseAfter(s, step, x, id, was)
    ensures Heard(Next(s, step).sessions[x], id, None)
  {
    QuietBefore(s, step, x, id);
    if x == step.sid {
      OwnSession(s, step);
      OwnStepHearsQuiet(s, step, id, was);
      OwnHeard(s, step, id, None);
    } else {
      OtherStepHearsQuiet(s, step, x, id, was);
    }
  }

  lemma StepKeepsQuiet(s: State, step: Step, loose: Loose, loose': Loose)
    requires Base(s) && QuietOk(s, loose) && LooseOk(s, loose) && Enabled(s, step) && Allowed(s, step)
    requires LooseStep(s, step, loose, loose')
    ensures QuietOk(Next(s, step), loose')
  {
    StepIsLocal(s, step);
    SessionsAreNotHub(s);
    var s' := Next(s, step);
    forall x, id | x in s'.sessions && s'.sessions[x].Listening()
                   && id != s'.sessions[x].id && id != s'.hub.id && !loose'(x, id) && Quiet(s', x, id)
      ensures Heard(s'.sessions[x], id, None)
    {
      ListenedBefore(s, step, x);
      assert StartOk(s.hub, s.sessions[x]);
      ListenerStaysQuiet(s, step, x, id, loose(x, id));
    }
  }

  // ---------------------------------------------------------------- loose entries stay what they are

  /** A peer that has told x after the step had told it before, unless the step brought x its Joined. */
  lemma ToldBefore(s: State, step: Step, x: nat, q: nat)
    requires FansOk(s) && Enabled(s, step) && x in s.sessions && q in Next(s, step).sessions && x != q
    requires s.sessions[x].Listening() || (step.InsertFan? && step.sid == x)
    requires HasTold(Next(s, step).sessions[q], x) && !(DeliversTo(s, step, x) && step.sid == q)
    ensures q in s.sessions && HasTold(s.sessions[q], x)
    ensures SameFixed(s.sessions[q], Next(s, step).sessions[q])
  {
    AnnouncedBefore(s, step, x, q);
    StepIsLocal(s, step);
  }

  lemma ReadKeepsEntry(s: State, x: nat, id: EndpointId)
    requires Enabled(s, Read(x)) && LooseEntry(s, x, id) && id != s.sessions[x].id
    ensures id in AfterRead(s.sessions[x]).roster && NewsOf(AfterRead(s.sessions[x]).Unread(), id) == Silence
    ensures AfterRead(s.sessions[x]).roster[id] == s.sessions[x].roster[id]
  {
    var t := s.sessions[x];
    ReadKeepsTold(t, id);
    assert t.Unread() == [t.wire[0]] + (t.wire[1..] + t.fanQ);
    NewsSplit([t.wire[0]], t.wire[1..] + t.fanQ, id);
  }

  lemma SnapshotKeepsEntry(s: State, step: Step, id: EndpointId)
    requires Enabled(s, step) && step.TakeSnapshot? && LooseEntry(s, step.sid, id)
    requires StartOk(s.hub, s.sessions[step.sid]) && Listed(Capped([s.hub] + step.others), id) == Silence
    ensures NewsOf(Own(s, step).Unread(), id) == Silence
  {
    var x, snap := s.sessions[step.sid], Snapshot(Capped([s.hub] + step.others));
    assert x.wire + [snap] == [snap] && x.Unread() == x.fanQ;
    NewsOfOne(snap, id);
    NewsSplit([snap], x.fanQ, id);
  }

  /** What the session's own step leaves of a loose entry. */
  lemma OwnStepKeepsEntry(s: State, step: Step, id: EndpointId)
    requires Enabled(s, step) && !step.Accept? && !step.InsertFan? && !(step.DirectLink? && step.id == id)
    requires StartOk(s.hub, s.sessions[step.sid]) && id != s.sessions[step.sid].id && LooseEntry(s, step.sid, id)
    requires step.TakeSnapshot? ==> Listed(Capped([s.hub] + step.others), id) == Silence
    ensures id in Own(s, step).roster && NewsOf(Own(s, step).Unread(), id) == Silence
    ensures Own(s, step).roster[id] == s.sessions[step.sid].roster[id]
  {
    var x := s.sessions[step.sid];
    if step.Forward? {
      ForwardKeepsUnread(x);
    } else if step.Read? {
      ReadKeepsEntry(s, step.sid, id);
    } else if step.TakeSnapshot? {
      SnapshotKeepsEntry(s, step, id);
    } else if PhaseOnly(step) {
      PhaseOnlyOwn(s, step);
    }
  }

  /** An entry that has become, or has stayed, what a loose entry is, whoever else steps on. */
  lemma EntryAfter(s: State, step: Step, x: nat, id: EndpointId)
    requires FansOk(s) && Enabled(s, step) && x in s.sessions && x in Next(s, step).sessions
    requires s.sessions[x].Listening() || (step.InsertFan? && step.sid == x)
    requires id != s.hub.id && id != s.sessions[x].id && SameFixed(s.sessions[x], Next(s, step).sessions[x])
    requires id in Next(s, step).sessions[x].roster && NewsOf(Next(s, step).sessions[x].Unread(), id) == Silence
    requires !(DeliversTo(s, step, x) && s.sessions[step.sid].id == id)
    requires forall q :: q in s.sessions && s.sessions[q].id == id && HasTold(s.sessions[q], x) ==>
                           !Next(s, step).sessions[x].phase.Fanned?
                           && s.sessions[q].vips != Next(s, step).sessions[x].roster[id]
    ensures LooseEntry(Next(s, step), x, id)
  {
    var s' := Next(s, step);
    StepIsLocal(s, step);
    forall q | q in s'.sessions && s'.sessions[q].id == id && HasTold(s'.sessions[q], x)
      ensures !s'.sessions[x].phase.Fanned? && s'.sessions[q].vips != s'.sessions[x].roster[id]
    {
      if DeliversTo(s, step, x) {
        assert q != step.sid;
      }
      ToldBefore(s, step, x, q);
    }
  }

  /** The news of x's queue does not change by what it may get from others than this peer. */
  lemma NewsAfter(s: State, step: Step, x: nat, id: EndpointId)
    requires Enabled(s, step) && x in s.sessions && !step.Accept?
    requires !(DeliversTo(s, step, x) && s.sessions[step.sid].id == id)
    ensures var t := if x == step.sid then Own(s, step) else s.sessions[x];
            && x in Next(s, step).sessions && Next(s, step).sessions[x].roster == t.roster
            && NewsOf(Next(s, step).sessions[x].Unread(), id) == NewsOf(t.Unread(), id)
            && Next(s, step).sessions[x].phase == t.phase && SameFixed(t, Next(s, step).sessions[x])
  {
    var t := if x == step.sid then Own(s, step) else s.sessions[x];
    if x == step.sid {
      OwnSession(s, step);
    } else {
      OtherSession(s, step, x);
    }
    if DeliversTo(s, step, x) {
      QueueNews(t, Sent(s, step), id);
    }
  }

  lemma NewEntryIsLoose(s: State, x: nat, id: EndpointId)
    requires FansOk(s) && Enabled(s, InsertFan(x)) && StartOk(s.hub, s.sessions[x])
    requires id in s.sessions[x].roster && id != s.hub.id && Quiet(s, x, id)
    ensures LooseEntry(Next(s, InsertFan(x)), x, id)
  {
    NewsAfter(s, InsertFan(x), x, id);
    EntryAfter(s, InsertFan(x), x, id);
  }

  lemma LinkEntryIsLoose(s: State, step: Step)
    requires FansOk(s) && Enabled(s, step) && step.DirectLink? && s.sessions[step.sid].Listening()
    requires step.id != s.hub.id && step.id != s.sessions[step.sid].id && !LinkSettles(s, step.sid, step.id, step.vips)
    ensures LooseEntry(Next(s, step), step.sid, step.id)
  {
    NewsAfter(s, step, step.sid, step.id);
    assert Own(s, step).Unread() == s.sessions[step.sid].Unread();
    forall q | q in s.sessions && s.sessions[q].id == step.id && HasTold(s.sessions[q], step.sid)
      ensures !s.sessions[step.sid].phase.Fanned? && s.sessions[q].vips != step.vips
    {
      assert !QuietSession(s.sessions[q], step.sid);
    }
    EntryAfter(s, step, step.sid, step.id);
  }

  lemma SnapshotPhase(s: State, step: Step, id: EndpointId)
    requires Enabled(s, step) && step.TakeSnapshot? && LooseEntry(s, step.sid, id)
    ensures forall q :: q in s.sessions && s.sessions[q].id == id ==> !HasTold(s.sessions[q], step.sid)
  {
  }

  lemma OldEntryIsLoose(s: State, step: Step, x: nat, id: EndpointId)
    requires FansOk(s) && Enabled(s, step) && !step.Accept? && x in s.sessions && s.sessions[x].Listening()
    requires StartOk(s.hub, s.sessions[x]) && id != s.sessions[x].id && LooseEntry(s, x, id)
    requires LooseAfter(s, step, x, id, true)
    requires step != InsertFan(x) && !(step.DirectLink? && step.sid == x && step.id == id)
    ensures LooseEntry(Next(s, step), x, id)
  {
    if x == step.sid {
      OwnStepKeepsEntry(s, step, id);
      if step.TakeSnapshot? {
        SnapshotPhase(s, step, id);
      }
    }
    NewsAfter(s, step, x, id);
    EntryAfter(s, step, x, id);
  }

  lemma StepKeepsEntry(s: State, step: Step, x: nat, id: EndpointId, was: bool)
    requires FansOk(s) && Enabled(s, step) && Allowed(s, step) && x in s.sessions && StartOk(s.hub, s.sessions[x])
    requires s.sessions[x].Listening() || step == InsertFan(x)
    requires s.sessions[x].Listening() && was ==> LooseEntry(s, x, id)
    requires LooseAfter(s, step, x, id, was)
    ensures x in Next(s, step).sessions && LooseEntry(Next(s, step), x, id)
  {
    StepIsLocal(s, step);
    if step == InsertFan(x) {
      NewEntryIsLoose(s, x, id);
    } else if step.DirectLink? && step.sid == x && step.id == id {
      LinkEntryIsLoose(s, step);
    } else if step.Accept? {
      AcceptKeepsEntry(s, step, x, id);
    } else {
      OldEntryIsLoose(s, step, x, id);
    }
  }

  lemma AcceptKeepsEntry(s: State, step: Step, x: nat, id: EndpointId)
    requires Enabled(s, step) && step.Accept? && x in s.sessions && LooseEntry(s, x, id)
    ensures LooseEntry(Next(s, step), x, id)
  {
    OtherSession(s, step, x);
    StepIsLocal(s, step);
  }

  lemma StepKeepsLoose(s: State, step: Step, loose: Loose, loose': Loose)
    requires Base(s) && LooseOk(s, loose) && Enabled(s, step) && Allowed(s, step)
    requires LooseStep(s, step, loose, loose')
    ensures LooseOk(Next(s, step), loose')
  {
    var s' := Next(s, step);
    forall x, id | x in s'.sessions && s'.sessions[x].Listening() && loose'(x, id) ensures LooseEntry(s', x, id) {
      ListenedBefore(s, step, x);
      assert StartOk(s.hub, s.sessions[x]);
      StepKeepsEntry(s, step, x, id, loose(x, id));
    }
  }

  lemma StepKeepsHidden(s: State, step: Step)
    requires HiddenNeverSends(s) && Enabled(s, step)
    ensures HiddenNeverSends(Next(s, step))
  {
    StepIsLocal(s, step);
    forall q | q in Next(s, step).sessions && Next(s, step).sessions[q].hidden
      ensures !Next(s, step).sessions[q].phase.Joining? && !Next(s, step).sessions[q].phase.Leaving?
    {
      if q != step.sid {
        OtherSession(s, step, q);
      } else if !step.Accept? {
        OwnSession(s, step);
      }
    }
  }

  // ---------------------------------------------------------------- whole runs

  lemma StepKeepsBase(s: State, step: Step)
    requires Base(s) && Enabled(s, step) && Allowed(s, step)
    ensures Base(Next(s, step))
  {
    StepKeepsFans(s, step);
    StepKeepsOneLive(s, step);
    StepKeepsIndex(s, step);
    StepKeepsTargets(s, step);
    if step.TakeSnapshot? {
      SessionsAreNotHub(s);
      SnapshotKeepsHub(s, step.others);
    }
    StepKeepsSessions(s, step);
    StepKeepsHidden(s, step);
  }

  lemma StepKeepsInv(s: State, step: Step, loose: Loose, loose': Loose)
    requires Inv(s, loose) && Enabled(s, step) && Allowed(s, step)
    requires LooseStep(s, step, loose, loose')
    ensures Inv(Next(s, step), loose')
  {
    StepKeepsBase(s, step);
    StepKeepsAnnounced(s, step, loose, loose');
    StepKeepsQuiet(s, step, loose, loose');
    StepKeepsLoose(s, step, loose, loose');
  }

  lemma {:induction false} RunKeepsInv(states: seq<State>, steps: seq<Step>)
    requires Run(states, steps) && AllAllowed(states, steps) && Initial(states[0])
    ensures Inv(states[|steps|], LooseNow(states, steps))
    decreases |steps|
  {
    if steps != [] {
      var n := |steps| - 1;
      RunKeepsInv(states[..n + 1], steps[..n]);
      StepKeepsInv(states[n], steps[n], LooseNow(states[..n + 1], steps[..n]), LooseNow(states, steps));
    }
  }

  // ---------------------------------------------------------------- what makes an entry loose, step by step

  /**
   * The fan is registered while the roster lists a peer the hub has nothing to tell of, as after a reconnect; or a
   * direct link completes that does not settle.
   */
  ghost predicate MakesLoose(s: State, step: Step, x: nat, id: EndpointId) {
    && x in s.sessions && id != s.hub.id
    && (|| (step == InsertFan(x) && id in s.sessions[x].roster && Quiet(s, x, id))
        || (step.DirectLink? && step.sid == x && step.id == id && !LinkSettles(s, x, id, step.vips)))
  }

  /** The hub has the peer listed to x, or sends x a message about it, or has something to tell when a fan or link comes. */
  ghost predicate PutsRight(s: State, step: Step, x: nat, id: EndpointId)
    requires Enabled(s, step)
  {
    && x in s.sessions
    && (|| (step == InsertFan(x) && (id in s.sessions[x].roster ==> !Quiet(s, x, id)))
        || (step.TakeSnapshot? && step.sid == x && Listed(Capped([s.hub] + step.others), id) != Silence)
        || (step.DirectLink? && step.sid == x && step.id == id && LinkSettles(s, x, id, step.vips))
        || (DeliversTo(s, step, x) && s.sessions[step.sid].id == id))
  }

  /** At step i the entry became loose, and nothing has put it right since. */
  ghost predicate LooseSince(states: seq<State>, steps: seq<Step>, x: nat, id: EndpointId, i: nat)
    requires Run(states, steps)
  {
    && i < |steps| && MakesLoose(states[i], steps[i], x, id)
    && forall j :: i < j < |steps| ==> !PutsRight(states[j], steps[j], x, id)
  }

  lemma LooseStepwise(s: State, step: Step, x: nat, id: EndpointId, was: bool)
    requires Enabled(s, step) && (was ==> x in s.sessions && id != s.hub.id)
    ensures LooseAfter(s, step, x, id, was) <==> MakesLoose(s, step, x, id) || (was && !PutsRight(s, step, x, id))
  {
  }

  lemma LooseIsPresent(states: seq<State>, steps: seq<Step>, x: nat, id: EndpointId)
    requires Run(states, steps) && LooseOf(states, steps, x, id)
    ensures x in states[|steps|].sessions && id != states[|steps|].hub.id
  {
    StepIsLocal(states[|steps| - 1], steps[|steps| - 1]);
  }

  ghost predicate StillLoose(states: seq<State>, steps: seq<Step>, x: nat, id: EndpointId)
    requires Run(states, steps)
  {
    exists i: nat :: LooseSince(states, steps, x, id, i)
  }

  lemma StillLooseStep(states: seq<State>, steps: seq<Step>, before: seq<State>, done: seq<Step>, x: nat, id: EndpointId)
    requires Run(states, steps) && steps != []
    requires before == states[..|steps|] && done == steps[..|steps| - 1]
    ensures StillLoose(states, steps, x, id)
            <==> || MakesLoose(states[|done|], steps[|done|], x, id)
                 || (!PutsRight(states[|done|], steps[|done|], x, id) && StillLoose(before, done, x, id))
  {
    if MakesLoose(states[|done|], steps[|done|], x, id) {
      assert LooseSince(states, steps, x, id, |done|);
    } else if StillLoose(states, steps, x, id) {
      var i: nat :| LooseSince(states, steps, x, id, i);
      assert LooseSince(before, done, x, id, i);
    } else if StillLoose(before, done, x, id) {
      var i: nat :| LooseSince(before, done, x, id, i);
      assert LooseSince(states, steps, x, id, i) || PutsRight(states[|done|], steps[|done|], x, id);
    }
  }

  /** In every run: an entry is loose if and only if some step made it so and none has put it right since. */
  lemma {:induction false} LooseExactly(states: seq<State>, steps: seq<Step>, x: nat, id: EndpointId)
    requires Run(states, steps)
    ensures LooseOf(states, steps, x, id) <==> StillLoose(states, steps, x, id)
    decreases |steps|
  {
    if steps != [] {
      var n := |steps| - 1;
      LooseExactly(states[..n + 1], steps[..n], x, id);
      if LooseOf(states[..n + 1], steps[..n], x, id) {
        LooseIsPresent(states[..n + 1], steps[..n], x, id);
      }
      LooseStepwise(states[n], steps[n], x, id, LooseOf(states[..n + 1], steps[..n], x, id));
      StillLooseStep(states, steps, states[..n + 1], steps[..n], x, id);
    }
  }

  // ---------------------------------------------------------------- exactly which links leave a loose entry

  lemma StrayLinkBreaks(s: State, step: Step, loose: Loose)
    requires OneLive(s) && AnnouncedOk(s, loose) && Enabled(s, step) && step.DirectLink?
    requires step.id != s.sessions[step.sid].id && step.id != s.hub.id && !loose(step.sid, step.id)
    requires s.sessions[step.sid].Listening() && !LinkSettles(s, step.sid, step.id, step.vips)
    ensures !QuietOk(Next(s, step), loose) || !AnnouncedOk(Next(s, step), loose)
  {
    var s', x := Next(s, step), step.sid;
    assert s'.sessions[x].Unread() == s.sessions[x].Unread();
    if q :| q in s.sessions && s.sessions[q].id == step.id && !QuietSession(s.sessions[q], x) {
      assert s'.sessions[q] == s.sessions[q] && HasTold(s.sessions[q], x);
      assert AnnouncedPairOk(s.sessions[x], x, s.sessions[q], false);
      assert !AnnouncedPairOk(s'.sessions[x], x, s'.sessions[q], false);
    } else {
      forall q | q in s'.sessions && s'.sessions[q].id == step.id ensures QuietSession(s'.sessions[q], x) {
        assert QuietSession(s.sessions[q], x);
      }
      assert Quiet(s', x, step.id) && !Heard(s'.sessions[x], step.id, None);
    }
  }

  lemma LessIsLoose(s: State, loose: Loose, less: Loose)
    requires forall x, id :: less(x, id) ==> loose(x, id)
    ensures AnnouncedOk(s, less) ==> AnnouncedOk(s, loose)
    ensures QuietOk(s, less) ==> QuietOk(s, loose)
  {
  }

  lemma SettlingLinkKeeps(s: State, step: Step, loose: Loose)
    requires Inv(s, loose) && Enabled(s, step) && Allowed(s, step) && step.DirectLink?
    requires LinkSettles(s, step.sid, step.id, step.vips)
    ensures QuietOk(Next(s, step), loose) && AnnouncedOk(Next(s, step), loose)
  {
    var less := (x: nat, id: EndpointId) requires true => LooseAfter(s, step, x, id, loose(x, id));
    StepKeepsAnnounced(s, step, loose, less);
    StepKeepsQuiet(s, step, loose, less);
    LessIsLoose(Next(s, step), loose, less);
  }

  /** A direct link leaves all that spokes will believe right if and only if it settles. */
  lemma LinkClauseIsExact(s: State, step: Step, loose: Loose)
    requires Inv(s, loose) && Enabled(s, step) && Allowed(s, step) && step.DirectLink?
    requires s.sessions[step.sid].Listening() && step.id != s.hub.id && !loose(step.sid, step.id)
    ensures QuietOk(Next(s, step), loose) && AnnouncedOk(Next(s, step), loose)
            <==> LinkSettles(s, step.sid, step.id, step.vips)
  {
    if LinkSettles(s, step.sid, step.id, step.vips) {
      SettlingLinkKeeps(s, step, loose);
    } else {
      StrayLinkBreaks(s, step, loose);
    }
  }

  /** Every broadcast is complete: tasks have not started, have ended, or just pump packets. */
  ghost predicate Settled(s: State) {
    forall q :: q in s.sessions ==> !s.sessions[q].Live() || s.sessions[q].phase.Pumping?
  }

  ghost predicate Shows(s: State, x: Session, q: nat)
    requires q in s.sessions
  {
    Holds(s.index, q) && !s.sessions[q].hidden && s.sessions[q].id != x.id
  }

  ghost predicate IsShown(s: State, x: Session, id: EndpointId) {
    exists q :: q in s.sessions && Shows(s, x, q) && s.sessions[q].id == id
  }

  /** The roster says of this id what the hub does: the hub's and the attached visible peers' addresses, and no others. */
  ghost predicate RightAbout(s: State, x: Session, id: EndpointId) {
    if id == s.hub.id then Lookup(x.roster, id) == Some(s.hub.vips)
    else
      && (id in x.roster <==> IsShown(s, x, id))
      && forall q :: q in s.sessions && Shows(s, x, q) && s.sessions[q].id == id ==>
                       Lookup(x.roster, id) == Some(s.sessions[q].vips)
  }

  /** The roster is the hub plus every attached visible session except the spoke's own. */
  ghost predicate Converged(s: State, x: Session) {
    forall id :: RightAbout(s, x, id)
  }

  lemma AttachedIsHolding(s: State, q: nat)
    requires IndexOk(s) && q in s.sessions
    ensures Holds(s.index, q) <==> s.sessions[q].Holding()
  {
    assert forall k :: k in s.index.byV4 ==> HeldBy(s, s.index.byV4[k]);
    assert forall k :: k in s.index.byV6 ==> HeldBy(s, s.index.byV6[k]);
  }

  /** In a settled state an attached visible session has told everyone. */
  lemma ShownHasTold(s: State, x: nat, q: nat)
    requires IndexOk(s) && Settled(s) && x in s.sessions && q in s.sessions && Shows(s, s.sessions[x], q)
    ensures HasTold(s.sessions[q], x) && s.sessions[q].id != s.sessions[x].id
  {
    AttachedIsHolding(s, q);
  }

  lemma NotShownIsQuiet(s: State, x: nat, id: EndpointId)
    requires IndexOk(s) && HiddenNeverSends(s) && Settled(s) && x in s.sessions
    requires id != s.sessions[x].id && !IsShown(s, s.sessions[x], id)
    ensures Quiet(s, x, id)
  {
    forall q | q in s.sessions && s.sessions[q].id == id ensures QuietSession(s.sessions[q], x) {
      AttachedIsHolding(s, q);
      assert !Shows(s, s.sessions[x], q);
    }
  }

  lemma TightIsRight(s: State, x: nat, id: EndpointId, loose: Loose)
    requires Inv(s, loose) && Settled(s) && x in s.sessions && s.sessions[x].phase.Pumping? && s.sessions[x].Unread() == []
    requires !loose(x, id) && id != s.hub.id && id != s.sessions[x].id
    ensures RightAbout(s, s.sessions[x], id)
  {
    forall q | q in s.sessions && Shows(s, s.sessions[x], q) && s.sessions[q].id == id
      ensures Lookup(s.sessions[x].roster, id) == Some(s.sessions[q].vips)
    {
      ShownHasTold(s, x, q);
      assert AnnouncedPairOk(s.sessions[x], x, s.sessions[q], false);
    }
    if !IsShown(s, s.sessions[x], id) {
      NotShownIsQuiet(s, x, id);
      assert Heard(s.sessions[x], id, None);
    }
  }

  lemma LooseIsWrong(s: State, x: nat, id: EndpointId, loose: Loose)
    requires Inv(s, loose) && Settled(s) && x in s.sessions && s.sessions[x].phase.Pumping?
    requires loose(x, id)
    ensures !RightAbout(s, s.sessions[x], id)
  {
    assert LooseEntry(s, x, id);
    if IsShown(s, s.sessions[x], id) {
      var q :| q in s.sessions && Shows(s, s.sessions[x], q) && s.sessions[q].id == id;
      ShownHasTold(s, x, q);
    }
  }

  lemma HubAndOwnAreRight(s: State, x: nat, id: EndpointId)
    requires x in s.sessions && StartOk(s.hub, s.sessions[x]) && HubKnown(s.hub, s.sessions[x])
    requires id == s.hub.id || id == s.sessions[x].id
    ensures RightAbout(s, s.sessions[x], id)
  {
  }

  /** In a settled state a spoke that has read everything is right about exactly the ids that are not loose. */
  lemma SettledConverges(s: State, x: nat, id: EndpointId, loose: Loose)
    requires Inv(s, loose) && Settled(s) && x in s.sessions
    requires Holds(s.index, x) && s.sessions[x].Unread() == []
    ensures RightAbout(s, s.sessions[x], id) <==> !loose(x, id)
  {
    AttachedIsHolding(s, x);
    if loose(x, id) {
      LooseIsWrong(s, x, id, loose);
    } else if id != s.hub.id && id != s.sessions[x].id {
      TightIsRight(s, x, id, loose);
    } else {
      assert StartOk(s.hub, s.sessions[x]) && HubKnown(s.hub, s.sessions[x]);
      HubAndOwnAreRight(s, x, id);
    }
  }

  /**
   * Convergence: in every interleaving, once the broadcasts are complete and a spoke has read all that was sent to it,
   * its roster is right about an id if and only if that is not one of its loose entries; so it is exactly the hub
   * plus the attached visible peers but itself if and only if it has no loose entry. Reconnecting spokes and
   * direct links at any time included.
   */
  lemma RosterConverges(states: seq<State>, steps: seq<Step>, x: nat)
    requires Run(states, steps) && AllAllowed(states, steps) && Initial(states[0])
    requires Settled(states[|steps|]) && x in states[|steps|].sessions
    requires Holds(states[|steps|].index, x) && states[|steps|].sessions[x].Unread() == []
    ensures forall id :: RightAbout(states[|steps|], states[|steps|].sessions[x], id) <==> !LooseOf(states, steps, x, id)
    ensures Converged(states[|steps|], states[|steps|].sessions[x]) <==> forall id :: !LooseOf(states, steps, x, id)
  {
    RunKeepsInv(states, steps);
    forall id
      ensures RightAbout(states[|steps|], states[|steps|].sessions[x], id) <==> !LooseOf(states, steps, x, id)
    {
      SettledConverges(states[|steps|], x, id, LooseNow(states, steps));
    }
  }

  /** Attached and past its snapshot. */
  predicate Attentive(x: Session) {
    x.Listening() && !x.phase.Fanned?
  }

  /** What the spoke will say about a peer when it has read everything sent to it so far. */
  function Finally(x: Session, id: EndpointId): Option<Vips> {
    Told(NewsOf(x.Unread(), id), x.roster, id)
  }

  /**
   * At every moment of a run, settled or not: what a spoke has read and still has to read of an announced
   * peer, whose Joined is not still to be sent to it, amounts to that peer's addresses if and only if the peer's
   * entry is not loose.
   */
  lemma AnnouncedPeerIsOnItsWay(states: seq<State>, steps: seq<Step>, x: nat, q: nat)
    requires Run(states, steps) && AllAllowed(states, steps) && Initial(states[0])
    requires x in states[|steps|].sessions && q in states[|steps|].sessions
    requires Attentive(states[|steps|].sessions[x]) && HasTold(states[|steps|].sessions[q], x)
    requires states[|steps|].sessions[x].id != states[|steps|].sessions[q].id
    ensures Finally(states[|steps|].sessions[x], states[|steps|].sessions[q].id) == Some(states[|steps|].sessions[q].vips)
            <==> !LooseOf(states, steps, x, states[|steps|].sessions[q].id)
  {
    RunKeepsInv(states, steps);
    var s := states[|steps|];
    var loose := LooseOf(states, steps, x, s.sessions[q].id);
    TellsWhenTight(s, x, q, loose);
  }

  lemma TellsWhenTight(s: State, x: nat, q: nat, loose: bool)
    requires x in s.sessions && q in s.sessions && Attentive(s.sessions[x]) && HasTold(s.sessions[q], x)
    requires s.sessions[x].id != s.sessions[q].id && AnnouncedPairOk(s.sessions[x], x, s.sessions[q], loose)
    requires loose ==> LooseEntry(s, x, s.sessions[q].id)
    ensures Finally(s.sessions[x], s.sessions[q].id) == Some(s.sessions[q].vips) <==> !loose
  {
  }
}
