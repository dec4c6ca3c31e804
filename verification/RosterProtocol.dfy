/**
 * The hub's session tasks and the spokes' roster readers as one transition system
 * (`hub_run_spoke` in src/tun/hub.rs, `spoke_apply_roster_msg` in src/tun/spoke.rs).
 *
 * `Enabled`/`Next` are what the code does, step by step, in any interleaving. `Allowed` states the
 * hypotheses convergence needs beyond the code. Claims and releases are single steps: module Rcu
 * proves that their retry loops act as if they were.
 */
module RosterProtocol {
  import opened Net
  import opened HubIndex
  import opened RosterTypes

  /** Slots of a roster fan-out queue (`TUN_CTRL_QUEUE`). */
  const FAN_SLOTS := 32

  /** How far a session task of the hub has come. `to` holds the fans still to be sent to. */
  datatype Phase =
    | Accepted
    | Refused
    | Claimed
    | Fanned
    | Snapped
    | Joining(to: set<nat>)
    | Pumping
    | Released
    | Unfanned
    | Leaving(to: set<nat>)
    | Ended

  /**
   * One session: the hub's task, its fan-out queue `fanQ`, its control stream `wire`, and the roster
   * of the spoke at the other end.
   */
  datatype Session = Session(
    id: EndpointId, vips: Vips, hidden: bool,
    phase: Phase, wire: seq<RosterMsg>, fanQ: seq<RosterMsg>, roster: Roster)
  {
    function Entry(): RosterEntry { RosterEntry(vips, id) }

    function Unread(): seq<RosterMsg> { wire + fanQ }

    function Awaited(): set<nat> {
      if phase.Joining? || phase.Leaving? then phase.to else {}
    }

    /** In the hub's index. */
    predicate Holding() {
      phase.Claimed? || Listening()
    }

    /** Its fan is registered and its receiver still open. */
    predicate Listening() {
      phase.Fanned? || phase.Snapped? || phase.Joining? || phase.Pumping?
    }

    predicate HasFan() {
      Listening() || phase.Released?
    }

    predicate Live() {
      Holding() || phase.Released? || phase.Unfanned? || phase.Leaving?
    }

    /** Joined has been addressed to every fan, Left not yet. */
    predicate Announced() {
      !hidden && (phase.Joining? || phase.Pumping?)
    }

    /** In the index and not yet announced, or out of it and not yet retracted. */
    predicate Unsettled() {
      !hidden && Live() && !phase.Leaving? && !Announced()
    }
  }

  datatype State = State(hub: RosterEntry, index: Index, fans: map<EndpointId, nat>, sessions: map<nat, Session>)

  datatype Step =
    | Accept(sid: nat, id: EndpointId, vips: Vips, hidden: bool, known: Roster)
    | ClaimVips(sid: nat)
    | InsertFan(sid: nat)
    | TakeSnapshot(sid: nat, others: seq<RosterEntry>)
    | CollectJoined(sid: nat)
    | SendJoined(sid: nat, target: nat)
    | StartPump(sid: nat)
    | Forward(sid: nat)
    | Read(sid: nat)
    | ReleaseVips(sid: nat)
    | DropFan(sid: nat)
    | CollectLeft(sid: nat)
    | SendLeft(sid: nat, target: nat)
    | Finish(sid: nat)
    | DirectLink(sid: nat, id: EndpointId, vips: Vips)

  predicate Visible(index: Index, e: RosterEntry) {
    && e.vips.v4 in index.byV4
    && !index.byV4[e.vips.v4].hidden
    && RosterEntry(index.byV4[e.vips.v4].vips, index.byV4[e.vips.v4].id) == e
  }

  /** `hub_roster_snapshot` after the hub's own entry: the visible IPv4 slots, in the order the table iterates. */
  ghost predicate Lists(index: Index, others: seq<RosterEntry>) {
    && (forall e :: e in others ==> Visible(index, e))
    && (forall k :: k in index.byV4 && !index.byV4[k].hidden ==>
          RosterEntry(index.byV4[k].vips, index.byV4[k].id) in others)
  }

  /** A send blocks while the receiver is open and its queue full; to a dropped receiver it returns at once. */
  predicate CanSend(s: State, target: nat) {
    target in s.sessions && (s.sessions[target].Listening() ==> |s.sessions[target].fanQ| < FAN_SLOTS)
  }

  ghost predicate Enabled(s: State, step: Step) {
    if step.Accept? then step.sid !in s.sessions && UsableVips(s.hub.vips, step.vips)
    else
      step.sid in s.sessions &&
      var x := s.sessions[step.sid];
      match step
      case ClaimVips(_) => x.phase.Accepted?
      case InsertFan(_) => x.phase.Claimed?
      case TakeSnapshot(_, others) => x.phase.Fanned? && Lists(s.index, others)
      case CollectJoined(_) => x.phase.Snapped?
      case SendJoined(_, target) => x.phase.Joining? && target in x.phase.to && CanSend(s, target)
      case StartPump(_) => x.phase == Joining({})
      case Forward(_) => x.phase.Pumping? && x.fanQ != []
      case Read(_) => x.wire != []
      case ReleaseVips(_) => x.phase.Pumping?
      case DropFan(_) => x.phase.Released?
      case CollectLeft(_) => x.phase.Unfanned?
      case SendLeft(_, target) => x.phase.Leaving? && target in x.phase.to && CanSend(s, target)
      case Finish(_) => x.phase == Leaving({})
      case DirectLink(_, _, vips) => vips.v4 != x.vips.v4 && vips.v6 != x.vips.v6
  }

  /** Where the steps that only move the hub's task on take it. */
  function NewPhase(s: State, step: Step): Phase
    requires step.sid in s.sessions
  {
    var x := s.sessions[step.sid];
    match step
    case ClaimVips(sid) => if ClaimOk(NextIndex(s, step), HubPeer(x.id, sid, x.vips, x.hidden)) then Claimed else Refused
    case InsertFan(_) => Fanned
    case TakeSnapshot(_, _) => Snapped
    case CollectJoined(_) => if x.hidden then Pumping else Joining(s.fans.Values)
    case SendJoined(_, target) => Joining(x.Awaited() - {target})
    case StartPump(_) => Pumping
    case ReleaseVips(_) => Released
    case DropFan(_) => Unfanned
    case CollectLeft(_) => if x.hidden then Ended else Leaving(s.fans.Values)
    case SendLeft(_, target) => Leaving(x.Awaited() - {target})
    case Finish(_) => Ended
    case _ => x.phase
  }

  function NextIndex(s: State, step: Step): Index
    requires step.sid in s.sessions
  {
    var x := s.sessions[step.sid];
    match step
    case ClaimVips(sid) => ClaimIn(s.index, HubPeer(x.id, sid, x.vips, x.hidden))
    case ReleaseVips(sid) => ReleaseIn(s.index, x.vips, sid)
    case _ => s.index
  }

  function NextFans(s: State, step: Step): map<EndpointId, nat>
    requires step.sid in s.sessions
  {
    match step
    case InsertFan(sid) => s.fans[s.sessions[sid].id := sid]
    case DropFan(sid) => s.fans - {s.sessions[sid].id}
    case _ => s.fans
  }

  /** The session itself after its step, what it may send to itself aside. */
  function Own(s: State, step: Step): Session
    requires Enabled(s, step) && !step.Accept?
  {
    var x := s.sessions[step.sid].(phase := NewPhase(s, step));
    match step
    case TakeSnapshot(_, others) => x.(wire := x.wire + [Snapshot(Capped([s.hub] + others))])
    case Forward(_) => x.(wire := x.wire + [x.fanQ[0]], fanQ := x.fanQ[1..])
    case Read(_) => AfterRead(x)
    case DirectLink(_, id, vips) => x.(roster := x.roster[id := vips])
    case _ => x
  }

  function AfterRead(x: Session): Session
    requires x.wire != []
  {
    x.(wire := x.wire[1..], roster := ApplyMsg(x.id, x.roster, x.wire[0]))
  }

  /** `mesh_update` puts the hub in the roster before the control stream is read. */
  function NewSession(hub: RosterEntry, id: EndpointId, vips: Vips, hidden: bool, known: Roster): Session {
    Session(id, vips, hidden, Accepted, [], [], known[hub.id := hub.vips])
  }

  function Deliver(sessions: map<nat, Session>, target: nat, m: RosterMsg): map<nat, Session> {
    if target in sessions && sessions[target].Listening()
    then sessions[target := sessions[target].(fanQ := sessions[target].fanQ + [m])]
    else sessions
  }

  function Next(s: State, step: Step): State
    requires Enabled(s, step)
  {
    if step.Accept? then
      s.(sessions := s.sessions[step.sid := NewSession(s.hub, step.id, step.vips, step.hidden, step.known)])
    else
      var moved := s.sessions[step.sid := Own(s, step)];
      var sessions :=
        if step.SendJoined? then Deliver(moved, step.target, Joined(s.sessions[step.sid].Entry()))
        else if step.SendLeft? then Deliver(moved, step.target, Left(s.sessions[step.sid].Entry()))
        else moved;
      State(s.hub, NextIndex(s, step), NextFans(s, step), sessions)
  }

  /** A session that has nothing more to tell x about its peer, and has not announced it either. */
  predicate QuietSession(q: Session, x: nat) {
    !q.Announced() && !q.Unsettled() && x !in q.Awaited()
  }

  /** The hub has nothing more to tell x about this peer, and has not announced it either. */
  ghost predicate Quiet(s: State, x: nat, id: EndpointId) {
    forall q :: q in s.sessions && s.sessions[q].id == id ==> QuietSession(s.sessions[q], x)
  }

  /** The sessions of one peer do not overlap, the Left broadcast included. */
  ghost predicate Alone(s: State, step: Step) {
    step.ClaimVips? && step.sid in s.sessions ==>
      forall q :: q in s.sessions && s.sessions[q].id == s.sessions[step.sid].id ==> !s.sessions[q].Live()
  }

  /**
   * The roster entry a direct link makes at the listening spoke sid will be put right: a message about
   * that peer is still to be read, or the hub has something of it to tell yet; where the hub has told
   * the peer's addresses already, the link must repeat them.
   */
  ghost predicate LinkSettles(s: State, sid: nat, id: EndpointId, vips: Vips)
    requires sid in s.sessions
  {
    var x := s.sessions[sid];
    || NewsOf(x.Unread(), id) != Silence
    || exists q :: q in s.sessions && s.sessions[q].id == id && !QuietSession(s.sessions[q], sid)
                   && (x.phase.Fanned? || !HasTold(s.sessions[q], sid) || s.sessions[q].vips == vips)
  }

  /** The peer is announced, and its Joined has reached x. */
  predicate HasTold(q: Session, x: nat) {
    q.Announced() && x !in q.Awaited()
  }

  /** The hypotheses of convergence. No node joins, dials or lists itself; the visible membership fits one snapshot. */
  ghost predicate Allowed(s: State, step: Step) {
    && Alone(s, step)
    && (step.Accept? ==> step.id != s.hub.id && step.id !in step.known)
    && (step.TakeSnapshot? ==> |step.others| < ROSTER_MAX_ENTRIES)
    && (step.DirectLink? && step.sid in s.sessions ==>
          step.id != s.sessions[step.sid].id && (step.id == s.hub.id ==> step.vips == s.hub.vips))
  }

  ghost predicate Initial(s: State) {
    s.index == EMPTY && s.fans == map[] && s.sessions == map[]
  }

  /** The states of a run: steps[i] takes states[i] to states[i+1]. */
  ghost predicate Run(states: seq<State>, steps: seq<Step>) {
    && |states| == |steps| + 1
    && forall i :: 0 <= i < |steps| ==> Enabled(states[i], steps[i]) && states[i + 1] == Next(states[i], steps[i])
  }

  ghost predicate AllAllowed(states: seq<State>, steps: seq<Step>)
    requires |states| == |steps| + 1
  {
    forall i :: 0 <= i < |steps| ==> Allowed(states[i], steps[i])
  }
}
