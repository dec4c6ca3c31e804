/**
 * The retry loop behind `rcu` (src/tun/hub.rs): load the shared index, run the closure on the
 * loaded value, swap the result in only when nobody stored in between, otherwise load again.
 * Every store is a fresh allocation, so a swap succeeds exactly when the version is the one loaded.
 */
module Rcu {
  import opened Net
  import opened HubIndex

  datatype Pc =
    | Ready
    | Loaded(snap: Index, seen: nat)
    | Swapped(at: nat)
    | Returned(at: nat, flag: bool)

  /** One call of `try_claim_peer` or `peers_remove_if_owned`. */
  datatype Call = Call(op: Op, pc: Pc)

  /** `log` records the calls in the order of their successful swaps. */
  datatype State = State(cell: Index, version: nat, calls: seq<Call>, log: seq<nat>)

  datatype Step = Load(c: nat) | TrySwap(c: nat) | Reload(c: nat)

  predicate Enabled(s: State, step: Step) {
    step.c < |s.calls| &&
    match step
    case Load(c) => s.calls[c].pc.Ready?
    case TrySwap(c) => s.calls[c].pc.Loaded?
    case Reload(c) => s.calls[c].pc.Swapped?
  }

  function SetPc(s: State, c: nat, pc: Pc): State
    requires c < |s.calls|
  {
    s.(calls := s.calls[c := s.calls[c].(pc := pc)])
  }

  function Answer(idx: Index, op: Op): bool {
    match op
    case Claim(peer) => ClaimOk(idx, peer)
    case Release(vips, _) => SlotsEmpty(idx, vips)
  }

  function Next(s: State, step: Step): State
    requires Enabled(s, step)
  {
    var call := s.calls[step.c];
    match step
    case Load(c) => SetPc(s, c, Loaded(s.cell, s.version))
    case TrySwap(c) =>
      if call.pc.seen == s.version then
        SetPc(s, c, Swapped(|s.log|)).(
          cell := Do(call.pc.snap, call.op), version := s.version + 1, log := s.log + [c])
      else
        SetPc(s, c, Loaded(s.cell, s.version))
    case Reload(c) => SetPc(s, c, Returned(call.pc.at, Answer(s.cell, call.op)))
  }

  /** The states of a run: steps[i] takes states[i] to states[i+1]. */
  ghost predicate Run(states: seq<State>, steps: seq<Step>) {
    && |states| == |steps| + 1
    && forall i :: 0 <= i < |steps| ==> Enabled(states[i], steps[i]) && states[i + 1] == Next(states[i], steps[i])
  }

  ghost predicate Initial(s: State) {
    && s.cell == EMPTY && s.version == 0 && s.log == []
    && forall c :: 0 <= c < |s.calls| ==> s.calls[c].pc.Ready?
  }

  ghost predicate LogInRange(s: State) {
    forall i :: 0 <= i < |s.log| ==> s.log[i] < |s.calls|
  }

  /** The operations in the order of their swaps. */
  ghost function Ops(s: State): (ops: seq<Op>)
    requires LogInRange(s)
    ensures |ops| == |s.log|
  {
    seq(|s.log|, i requires 0 <= i < |s.log| && LogInRange(s) => s.calls[s.log[i]].op)
  }

  /** Each call is in the log once when it has swapped, at the position it remembers, and not at all before. */
  ghost predicate LoggedOnce(s: State) {
    && LogInRange(s)
    && (forall i :: 0 <= i < |s.log| ==>
          && (s.calls[s.log[i]].pc.Swapped? || s.calls[s.log[i]].pc.Returned?)
          && s.calls[s.log[i]].pc.at == i)
    && (forall c :: 0 <= c < |s.calls| && (s.calls[c].pc.Swapped? || s.calls[c].pc.Returned?) ==>
          s.calls[c].pc.at < |s.log| && s.log[s.calls[c].pc.at] == c)
  }

  ghost predicate Linear(s: State) {
    && LoggedOnce(s)
    && s.cell == DoAll(EMPTY, Ops(s))
    && (forall c :: 0 <= c < |s.calls| && s.calls[c].pc.Loaded? ==>
          s.calls[c].pc.seen <= s.version && (s.calls[c].pc.seen == s.version ==> s.calls[c].pc.snap == s.cell))
  }

  lemma StepKeepsLog(s: State, step: Step)
    requires LoggedOnce(s) && Enabled(s, step)
    ensures LoggedOnce(Next(s, step))
  {
    var s', c := Next(s, step), step.c;
    assert forall d :: 0 <= d < |s.calls| && d != c ==> s'.calls[d] == s.calls[d];
    if s'.log != s.log {
      assert forall i :: 0 <= i < |s.log| ==> s'.log[i] == s.log[i];
      assert forall i :: 0 <= i < |s.log| ==> s.log[i] != c;
    }
  }

  lemma StepExtendsOps(s: State, step: Step)
    requires LogInRange(s) && Enabled(s, step) && LogInRange(Next(s, step))
    ensures step.TrySwap? && s.calls[step.c].pc.seen == s.version ==>
              Ops(Next(s, step)) == Ops(s) + [s.calls[step.c].op]
    ensures !(step.TrySwap? && s.calls[step.c].pc.seen == s.version) ==> Ops(Next(s, step)) == Ops(s)
  {
  }

  lemma StepKeepsLinear(s: State, step: Step)
    requires Linear(s) && Enabled(s, step)
    ensures Linear(Next(s, step))
  {
    StepKeepsLog(s, step);
    StepExtendsOps(s, step);
    var s' := Next(s, step);
    assert forall d :: 0 <= d < |s.calls| && d != step.c ==> s'.calls[d] == s.calls[d];
    if s'.log != s.log {
      assert Ops(s')[..|s.log|] == Ops(s);
    }
  }

  /** The retry loops have the effect of atomic operations, one each, at their successful swaps. */
  lemma {:induction false} RunIsLinear(states: seq<State>, steps: seq<Step>)
    requires Run(states, steps) && Initial(states[0])
    ensures Linear(states[|steps|])
  {
    if steps == [] {
      assert Ops(states[0]) == [];
    } else {
      var n := |steps| - 1;
      RunIsLinear(states[..n + 1], steps[..n]);
      StepKeepsLinear(states[n], steps[n]);
    }
  }

  // ---------------------------------------------------------------- what a claim's answer means

  ghost predicate NoEntryOf(idx: Index, id: EndpointId) {
    && (forall k :: k in idx.byV4 ==> idx.byV4[k].id != id)
    && (forall k :: k in idx.byV6 ==> idx.byV6[k].id != id)
  }

  /** Operations of other peers only. */
  ghost predicate Others(ops: seq<Op>, peer: HubPeer) {
    forall o :: o in ops ==> if o.Claim? then o.peer.id != peer.id else o.session != peer.session
  }

  /** Whatever other peers do between a claim's swap and its reload, they neither undo it nor fake it. */
  lemma {:induction false} OthersChangeNothing(idx: Index, peer: HubPeer, ops: seq<Op>)
    requires Others(ops, peer)
    ensures Installed(idx, peer) ==> Installed(DoAll(idx, ops), peer)
    ensures NoEntryOf(idx, peer.id) ==> NoEntryOf(DoAll(idx, ops), peer.id)
  {
    if ops != [] {
      var init, last := ops[..|ops| - 1], ops[|ops| - 1];
      InitAndLast(ops);
      OthersChangeNothing(idx, peer, init);
    }
  }

  /** With no overlapping session of the same peer, Ok says exactly that the claim's own swap installed it. */
  lemma ClaimOkIffInstalled(before: Index, peer: HubPeer, between: seq<Op>)
    requires NoEntryOf(before, peer.id) && Others(between, peer)
    ensures ClaimOk(DoAll(ClaimIn(before, peer), between), peer) <==> !Foreign(before, peer)
    ensures !Foreign(before, peer) ==> Installed(DoAll(ClaimIn(before, peer), between), peer)
  {
    OthersChangeNothing(ClaimIn(before, peer), peer, between);
  }

  lemma {:induction false} DoAllSplit(idx: Index, a: seq<Op>, b: seq<Op>)
    ensures DoAll(idx, a + b) == DoAll(DoAll(idx, a), b)
  {
    if b == [] {
      assert a + b == a;
    } else {
      var init := b[..|b| - 1];
      assert (a + b)[..|a + b| - 1] == a + init;
      DoAllSplit(idx, a, init);
    }
  }

  /** Every session of this peer that claimed has released since, and claims no more. */
  ghost predicate SessionsOver(ops: seq<Op>, id: EndpointId) {
    forall c :: c in ops && c.Claim? && c.peer.id == id ==>
      exists n :: 0 <= n < |ops| && ReleasedAt(ops, n, c.peer.session)
  }

  ghost predicate ReleasedAt(ops: seq<Op>, n: nat, session: nat)
    requires n < |ops|
  {
    && ops[n].Release? && ops[n].session == session
    && forall i :: n < i < |ops| && ops[i].Claim? ==> ops[i].peer.session != session
  }

  lemma SessionsOverLeaveNothing(ops: seq<Op>, id: EndpointId)
    requires OwnReleases(ops) && SessionsOver(ops, id)
    ensures NoEntryOf(DoAll(EMPTY, ops), id)
  {
    var idx := DoAll(EMPTY, ops);
    EntriesComeFromClaims(ops);
    forall k | k in idx.byV4 ensures idx.byV4[k].id != id {
      if idx.byV4[k].id == id {
        OverButHeld(ops, idx.byV4[k]);
      }
    }
    forall k | k in idx.byV6 ensures idx.byV6[k].id != id {
      if idx.byV6[k].id == id {
        OverButHeld(ops, idx.byV6[k]);
      }
    }
  }

  lemma OverButHeld(ops: seq<Op>, peer: HubPeer)
    requires OwnReleases(ops) && SessionsOver(ops, peer.id) && ClaimedIn(ops, peer)
    ensures !Holds(DoAll(EMPTY, ops), peer.session)
  {
    var n :| 0 <= n < |ops| && ReleasedAt(ops, n, Claim(peer).peer.session);
    ReleasedNeverReturns(ops, n);
  }

  /**
   * No overlap: when call c swaps, the earlier sessions of its peer have all released, and until
   * call c reloads only other peers' calls swap.
   */
  ghost predicate NoOverlap(s: State, c: nat)
    requires LoggedOnce(s) && c < |s.calls| && s.calls[c].op.Claim? && s.calls[c].pc.Swapped?
  {
    var at := s.calls[c].pc.at;
    && OwnReleases(Ops(s)[..at])
    && SessionsOver(Ops(s)[..at], s.calls[c].op.peer.id)
    && Others(Ops(s)[at + 1..], s.calls[c].op.peer)
  }

  /** In a run of the retry loops: the flag a claim returns is true exactly when its own swap installed the entry. */
  lemma ClaimAnswer(s: State, c: nat)
    requires Linear(s) && Enabled(s, Reload(c)) && s.calls[c].op.Claim? && NoOverlap(s, c)
    ensures Next(s, Reload(c)).calls[c].pc.flag
            <==> !Foreign(DoAll(EMPTY, Ops(s)[..s.calls[c].pc.at]), s.calls[c].op.peer)
    ensures Next(s, Reload(c)).calls[c].pc.flag ==> Installed(s.cell, s.calls[c].op.peer)
  {
    var ops, at, peer := Ops(s), s.calls[c].pc.at, s.calls[c].op.peer;
    CellAfterSwap(s, c);
    SessionsOverLeaveNothing(ops[..at], peer.id);
    ClaimOkIffInstalled(DoAll(EMPTY, ops[..at]), peer, ops[at + 1..]);
  }

  /** In a run of the retry loops: a release returns true exactly when neither slot of its pair holds anyone at the reload. */
  lemma ReleaseAnswer(s: State, c: nat)
    requires Enabled(s, Reload(c)) && s.calls[c].op.Release?
    ensures var vips := s.calls[c].op.vips;
            Next(s, Reload(c)).calls[c].pc.flag <==> vips.v4 !in s.cell.byV4 && vips.v6 !in s.cell.byV6
    ensures Next(s, Reload(c)).cell == s.cell && Next(s, Reload(c)).log == s.log
  {
  }

  // ---------------------------------------------------------------- exactly when Ok is wrong

  /** Operations of other sessions, of whatever peer. */
  ghost predicate NotOwn(ops: seq<Op>, peer: HubPeer) {
    forall o :: o in ops ==> if o.Claim? then o.peer.session != peer.session else o.session != peer.session
  }

  /** A claim of the same peer's that succeeds on the index as it is then, for the same IPv4 address. */
  predicate Takes4(idx: Index, op: Op, peer: HubPeer) {
    op.Claim? && op.peer.id == peer.id && !Foreign(idx, op.peer) && op.peer.vips.v4 == peer.vips.v4
  }

  predicate Takes6(idx: Index, op: Op, peer: HubPeer) {
    op.Claim? && op.peer.id == peer.id && !Foreign(idx, op.peer) && op.peer.vips.v6 == peer.vips.v6
  }

  predicate TakesAt(idx: Index, ops: seq<Op>, peer: HubPeer, i: nat) {
    i < |ops| && (Takes4(DoAll(idx, ops[..i]), ops[i], peer) || Takes6(DoAll(idx, ops[..i]), ops[i], peer))
  }

  predicate Takes6At(idx: Index, ops: seq<Op>, peer: HubPeer, i: nat) {
    i < |ops| && Takes6(DoAll(idx, ops[..i]), ops[i], peer)
  }

  /** Another session of the peer takes one of its slots over. */
  ghost predicate Displaced(idx: Index, ops: seq<Op>, peer: HubPeer) {
    exists i: nat :: TakesAt(idx, ops, peer, i)
  }

  /** Another session of the peer takes its IPv6 slot over. */
  ghost predicate Displaced6(idx: Index, ops: seq<Op>, peer: HubPeer) {
    exists i: nat :: Takes6At(idx, ops, peer, i)
  }

  lemma TakesStep(idx: Index, ops: seq<Op>, peer: HubPeer, i: nat)
    requires i < |ops|
    ensures TakesAt(idx, ops, peer, i) <==>
              if i < |ops| - 1 then TakesAt(idx, ops[..|ops| - 1], peer, i)
              else Takes4(DoAll(idx, ops[..|ops| - 1]), ops[|ops| - 1], peer)
                   || Takes6(DoAll(idx, ops[..|ops| - 1]), ops[|ops| - 1], peer)
    ensures Takes6At(idx, ops, peer, i) <==>
              if i < |ops| - 1 then Takes6At(idx, ops[..|ops| - 1], peer, i)
              else Takes6(DoAll(idx, ops[..|ops| - 1]), ops[|ops| - 1], peer)
  {
    assert ops[..|ops| - 1][..i] == ops[..i];
  }

  lemma DisplacedStep(idx: Index, ops: seq<Op>, peer: HubPeer)
    requires ops != []
    ensures Displaced(idx, ops, peer) <==>
              || Displaced(idx, ops[..|ops| - 1], peer) || Takes4(DoAll(idx, ops[..|ops| - 1]), ops[|ops| - 1], peer)
              || Takes6(DoAll(idx, ops[..|ops| - 1]), ops[|ops| - 1], peer)
    ensures Displaced6(idx, ops, peer) <==>
              Displaced6(idx, ops[..|ops| - 1], peer) || Takes6(DoAll(idx, ops[..|ops| - 1]), ops[|ops| - 1], peer)
  {
    forall i: nat | i < |ops| {
      TakesStep(idx, ops, peer, i);
    }
    var n: nat := |ops| - 1;
    TakesStep(idx, ops, peer, n);
    assert forall i: nat :: TakesAt(idx, ops[..n], peer, i) ==> TakesAt(idx, ops, peer, i);
    assert forall i: nat :: Takes6At(idx, ops[..n], peer, i) ==> Takes6At(idx, ops, peer, i);
  }

  predicate HasOwn6(idx: Index, peer: HubPeer) {
    peer.vips.v6 in idx.byV6 && idx.byV6[peer.vips.v6] == peer
  }

  /** Only another session of the same peer takes an entry away, and nobody else puts it back. */
  lemma {:induction false} EntryUntilDisplaced(idx: Index, peer: HubPeer, ops: seq<Op>)
    requires NotOwn(ops, peer)
    ensures Installed(DoAll(idx, ops), peer) <==> Installed(idx, peer) && !Displaced(idx, ops, peer)
    ensures HasOwn6(DoAll(idx, ops), peer) <==> HasOwn6(idx, peer) && !Displaced6(idx, ops, peer)
  {
    if ops != [] {
      var init, last := ops[..|ops| - 1], ops[|ops| - 1];
      InitAndLast(ops);
      EntryUntilDisplaced(idx, peer, init);
      DisplacedStep(idx, ops, peer);
      OneOpOnEntry(DoAll(idx, init), peer, last);
    }
  }

  lemma OneOpOnEntry(idx: Index, peer: HubPeer, op: Op)
    requires NotOwn([op], peer)
    ensures Installed(Do(idx, op), peer) <==> Installed(idx, peer) && !Takes4(idx, op, peer) && !Takes6(idx, op, peer)
    ensures HasOwn6(Do(idx, op), peer) <==> HasOwn6(idx, peer) && !Takes6(idx, op, peer)
  {
    assert op in [op];
  }

  /** Who holds the IPv4 slot of the peer after the first i operations, if a session of the peer does. */
  function Holder4(idx: Index, ops: seq<Op>, peer: HubPeer, i: nat): HubPeer
    requires i <= |ops| && TakenAt(idx, ops, peer, i)
  {
    if i == 0 then idx.byV4[peer.vips.v4] else ops[i - 1].peer
  }

  /** A session of the peer held the IPv4 slot from the start (i == 0), or took it by the i-th operation. */
  predicate TakenAt(idx: Index, ops: seq<Op>, peer: HubPeer, i: nat)
    requires i <= |ops|
  {
    if i == 0 then ClaimOk(idx, peer) else Takes4(DoAll(idx, ops[..i - 1]), ops[i - 1], peer)
  }

  predicate FreesV4(op: Op, peer: HubPeer, holder: HubPeer) {
    op.Release? && op.vips.v4 == peer.vips.v4 && op.session == holder.session
  }

  /** Operation j neither takes the slot for the peer again nor releases its holder. */
  predicate LeavesAlone(idx: Index, ops: seq<Op>, peer: HubPeer, holder: HubPeer, j: nat)
    requires j < |ops|
  {
    !FreesV4(ops[j], peer, holder) && !Takes4(DoAll(idx, ops[..j]), ops[j], peer)
  }

  /** From then on no session of the peer takes the slot again, and none of the operations releases that one. */
  ghost predicate KeptFrom(idx: Index, ops: seq<Op>, peer: HubPeer, i: nat) {
    && i <= |ops| && TakenAt(idx, ops, peer, i)
    && forall j :: i <= j < |ops| ==> LeavesAlone(idx, ops, peer, Holder4(idx, ops, peer, i), j)
  }

  /** The last session of the peer on the IPv4 slot is not released. */
  ghost predicate Keeps4(idx: Index, ops: seq<Op>, peer: HubPeer) {
    exists i: nat :: KeptFrom(idx, ops, peer, i)
  }

  lemma SameBefore(idx: Index, ops: seq<Op>, init: seq<Op>, peer: HubPeer, holder: HubPeer, j: nat)
    requires j < |init| <= |ops| && init == ops[..|init|]
    ensures LeavesAlone(idx, ops, peer, holder, j) <==> LeavesAlone(idx, init, peer, holder, j)
    ensures TakenAt(idx, ops, peer, j + 1) <==> TakenAt(idx, init, peer, j + 1)
  {
    assert ops[..j] == init[..j];
  }

  lemma KeptFromStep(idx: Index, ops: seq<Op>, init: seq<Op>, peer: HubPeer, i: nat)
    requires ops != [] && init == ops[..|ops| - 1] && i <= |init|
    ensures KeptFrom(idx, ops, peer, i) <==>
              KeptFrom(idx, init, peer, i) && LeavesAlone(idx, ops, peer, Holder4(idx, init, peer, i), |init|)
    ensures KeptFrom(idx, ops, peer, i) ==> Holder4(idx, ops, peer, i) == Holder4(idx, init, peer, i)
  {
    if i > 0 {
      SameBefore(idx, ops, init, peer, peer, i - 1);
    }
    if TakenAt(idx, init, peer, i) {
      var holder := Holder4(idx, init, peer, i);
      assert TakenAt(idx, ops, peer, i) && Holder4(idx, ops, peer, i) == holder;
      assert KeptFrom(idx, ops, peer, i) <==> forall j :: i <= j < |ops| ==> LeavesAlone(idx, ops, peer, holder, j);
      forall j | i <= j < |init| ensures LeavesAlone(idx, ops, peer, holder, j) <==> LeavesAlone(idx, init, peer, holder, j) {
        SameBefore(idx, ops, init, peer, holder, j);
      }
    }
  }

  lemma OneOpOnSlot(idx: Index, peer: HubPeer, op: Op)
    ensures ClaimOk(Do(idx, op), peer) <==>
              || Takes4(idx, op, peer)
              || (ClaimOk(idx, peer) && !FreesV4(op, peer, idx.byV4[peer.vips.v4]))
    ensures ClaimOk(Do(idx, op), peer) ==>
              Do(idx, op).byV4[peer.vips.v4] == if Takes4(idx, op, peer) then op.peer else idx.byV4[peer.vips.v4]
  {
  }

  /** The i-th holder is still the one on the slot. */
  ghost predicate StillThere(idx: Index, ops: seq<Op>, peer: HubPeer, i: nat) {
    KeptFrom(idx, ops, peer, i) ==>
      && ClaimOk(DoAll(idx, ops), peer)
      && DoAll(idx, ops).byV4[peer.vips.v4].session == Holder4(idx, ops, peer, i).session
  }

  lemma StillThereStep(idx: Index, peer: HubPeer, ops: seq<Op>, init: seq<Op>, i: nat)
    requires ops != [] && init == ops[..|ops| - 1] && StillThere(idx, init, peer, i)
    ensures StillThere(idx, ops, peer, i)
  {
    var last := ops[|ops| - 1];
    OneOpOnSlot(DoAll(idx, init), peer, last);
    if i < |ops| {
      KeptFromStep(idx, ops, init, peer, i);
    }
  }

  /** The IPv4 slot holds the peer's id in the end exactly when its last session on it is not released. */
  lemma {:induction false} SlotExactly(idx: Index, peer: HubPeer, ops: seq<Op>)
    ensures ClaimOk(DoAll(idx, ops), peer) <==> Keeps4(idx, ops, peer)
    ensures forall i: nat :: StillThere(idx, ops, peer, i)
  {
    if ops == [] {
      assert ClaimOk(idx, peer) ==> KeptFrom(idx, ops, peer, 0);
    } else {
      var init, last := ops[..|ops| - 1], ops[|ops| - 1];
      SlotExactly(idx, peer, init);
      forall i: nat ensures StillThere(idx, ops, peer, i) {
        StillThereStep(idx, peer, ops, init, i);
      }
      if i: nat :| KeptFrom(idx, ops, peer, i) {
        assert StillThere(idx, ops, peer, i);
      }
      if ClaimOk(DoAll(idx, ops), peer) {
        SlotIsKept(idx, peer, ops, init);
      }
    }
  }

  lemma SlotIsKept(idx: Index, peer: HubPeer, ops: seq<Op>, init: seq<Op>)
    requires ops != [] && init == ops[..|ops| - 1] && ClaimOk(DoAll(idx, ops), peer)
    requires ClaimOk(DoAll(idx, init), peer) ==> Keeps4(idx, init, peer)
    requires forall i: nat :: StillThere(idx, init, peer, i)
    ensures Keeps4(idx, ops, peer)
  {
    var last := ops[|ops| - 1];
    OneOpOnSlot(DoAll(idx, init), peer, last);
    if Takes4(DoAll(idx, init), last, peer) {
      assert KeptFrom(idx, ops, peer, |ops|);
    } else {
      var i: nat :| KeptFrom(idx, init, peer, i);
      assert StillThere(idx, init, peer, i);
      KeptFromStep(idx, ops, init, peer, i);
    }
  }

  /**
   * Whatever other sessions of any peer did before the claim and do between its swap and its reload: the claim is
   * installed at the reload if and only if its swap was not refused and no session of its peer has taken a slot
   * over since; Ok is the answer if and only if the last session of the peer on the IPv4 slot is not released.
   * So the answer is wrong exactly when a claim that was refused or displaced finds another session of its peer there.
   */
  lemma ClaimOkExactly(before: Index, peer: HubPeer, between: seq<Op>)
    requires NotOwn(between, peer)
    ensures var start := ClaimIn(before, peer);
            var after := DoAll(start, between);
            && (Installed(after, peer) <==> !Foreign(before, peer) && !Displaced(start, between, peer))
            && (ClaimOk(after, peer) <==> Keeps4(start, between, peer))
            && ((ClaimOk(after, peer) <==> Installed(after, peer))
                <==> !((Foreign(before, peer) || Displaced(start, between, peer)) && Keeps4(start, between, peer)))
  {
    EntryUntilDisplaced(ClaimIn(before, peer), peer, between);
    SlotExactly(ClaimIn(before, peer), peer, between);
  }

  /** The same in a run of the retry loops, for the flag a claim returns. */
  lemma ClaimAnswerExactly(s: State, c: nat)
    requires Linear(s) && Enabled(s, Reload(c)) && s.calls[c].op.Claim?
    requires NotOwn(Ops(s)[s.calls[c].pc.at + 1..], s.calls[c].op.peer)
    ensures var at, peer := s.calls[c].pc.at, s.calls[c].op.peer;
            var before, between := DoAll(EMPTY, Ops(s)[..at]), Ops(s)[at + 1..];
            var start := ClaimIn(before, peer);
            && (Installed(s.cell, peer) <==> !Foreign(before, peer) && !Displaced(start, between, peer))
            && (Next(s, Reload(c)).calls[c].pc.flag <==> Keeps4(start, between, peer))
            && ((Next(s, Reload(c)).calls[c].pc.flag <==> Installed(s.cell, peer))
                <==> !((Foreign(before, peer) || Displaced(start, between, peer)) && Keeps4(start, between, peer)))
  {
    var ops, at, peer := Ops(s), s.calls[c].pc.at, s.calls[c].op.peer;
    CellAfterSwap(s, c);
    ClaimOkExactly(DoAll(EMPTY, ops[..at]), peer, ops[at + 1..]);
  }

  /** A newer session of the peer takes both slots over before the older one's reload, which answers Ok all the same. */
  lemma NewerSessionClaimsOk(older: HubPeer, newer: HubPeer)
    requires older.id == newer.id && older.vips == newer.vips && older.session != newer.session
    ensures var after := DoAll(ClaimIn(EMPTY, older), [Claim(newer)]);
            ClaimOk(after, older) && !Installed(after, older) && !Foreign(EMPTY, older) && Installed(after, newer)
  {
    assert [Claim(newer)][..0] == [];
    assert DoAll(ClaimIn(EMPTY, older), [Claim(newer)]) == Do(DoAll(ClaimIn(EMPTY, older), []), Claim(newer));
  }

  /** The cell is what a swapped call made of the operations before it, and the operations behind it of that. */
  lemma CellAfterSwap(s: State, c: nat)
    requires Linear(s) && Enabled(s, Reload(c))
    ensures var at := s.calls[c].pc.at;
            s.cell == DoAll(Do(DoAll(EMPTY, Ops(s)[..at]), s.calls[c].op), Ops(s)[at + 1..])
  {
    var ops, at := Ops(s), s.calls[c].pc.at;
    assert ops[at] == s.calls[c].op;
    assert ops == ops[..at] + [ops[at]] + ops[at + 1..];
    DoAllSplit(EMPTY, ops[..at] + [ops[at]], ops[at + 1..]);
    assert (ops[..at] + [ops[at]])[..at] == ops[..at];
  }

  // ---------------------------------------------------------------- exactly when a refused claim leaks

  /** The session's number is not used for anything else. */
  ghost predicate OwnNumber(ops: seq<Op>, peer: HubPeer) {
    forall c :: c in ops && c.Claim? && c.peer.session == peer.session ==> c.peer == peer
  }

  /** Told "already claimed", a session can only have left its IPv6 entry behind. */
  lemma RefusedHoldsOnly6(ops: seq<Op>, peer: HubPeer)
    requires OwnNumber(ops, peer) && !ClaimOk(DoAll(EMPTY, ops), peer)
    ensures Holds(DoAll(EMPTY, ops), peer.session) <==> HasOwn6(DoAll(EMPTY, ops), peer)
  {
    var idx := DoAll(EMPTY, ops);
    EntriesComeFromClaims(ops);
    RunUnderOwnVips(ops);
    forall k | k in idx.byV4 && idx.byV4[k].session == peer.session ensures idx.byV4[k] == peer {
      assert ClaimedIn(ops, idx.byV4[k]);
    }
    forall k | k in idx.byV6 && idx.byV6[k].session == peer.session ensures idx.byV6[k] == peer {
      assert ClaimedIn(ops, idx.byV6[k]);
    }
  }

  /**
   * Told "already claimed" after its claim behind `earlier` and before the reload behind `between`, a session has left
   * an entry in the index exactly when its swap was not refused and no session of its peer has taken its IPv6
   * slot over since.
   */
  lemma RefusedLeaksExactly(earlier: seq<Op>, peer: HubPeer, between: seq<Op>)
    requires NotOwn(earlier, peer) && NotOwn(between, peer)
    requires !ClaimOk(DoAll(ClaimIn(DoAll(EMPTY, earlier), peer), between), peer)
    ensures var start := ClaimIn(DoAll(EMPTY, earlier), peer);
            Holds(DoAll(start, between), peer.session)
            <==> !Foreign(DoAll(EMPTY, earlier), peer) && !Displaced6(start, between, peer)
  {
    var ops := earlier + [Claim(peer)] + between;
    var before := DoAll(EMPTY, earlier);
    DoAllSplit(EMPTY, earlier + [Claim(peer)], between);
    assert (earlier + [Claim(peer)])[..|earlier|] == earlier;
    assert OwnNumber(ops, peer);
    RefusedHoldsOnly6(ops, peer);
    EntryUntilDisplaced(ClaimIn(before, peer), peer, between);
    NeverClaimed6(earlier, peer);
  }

  /** The same in a run of the retry loops, for a claim that returns false. */
  lemma RefusedAnswerLeaksExactly(s: State, c: nat)
    requires Linear(s) && Enabled(s, Reload(c)) && s.calls[c].op.Claim?
    requires NotOwn(Ops(s)[..s.calls[c].pc.at], s.calls[c].op.peer)
    requires NotOwn(Ops(s)[s.calls[c].pc.at + 1..], s.calls[c].op.peer)
    requires !Next(s, Reload(c)).calls[c].pc.flag
    ensures var at, peer := s.calls[c].pc.at, s.calls[c].op.peer;
            var before := DoAll(EMPTY, Ops(s)[..at]);
            Holds(s.cell, peer.session)
            <==> !Foreign(before, peer) && !Displaced6(ClaimIn(before, peer), Ops(s)[at + 1..], peer)
  {
    CellAfterSwap(s, c);
    RefusedLeaksExactly(Ops(s)[..s.calls[c].pc.at], s.calls[c].op.peer, Ops(s)[s.calls[c].pc.at + 1..]);
  }

  lemma NeverClaimed6(ops: seq<Op>, peer: HubPeer)
    requires NotOwn(ops, peer)
    ensures !HasOwn6(DoAll(EMPTY, ops), peer)
  {
    EntryUntilDisplaced(EMPTY, peer, ops);
  }

  /** The peer announces one pair in the whole run, and the session's releases name it. */
  ghost predicate OnePair(ops: seq<Op>, peer: HubPeer) {
    && (forall c :: c in ops && c.Claim? && c.peer.id == peer.id ==> c.peer.vips == peer.vips)
    && (forall r :: r in ops && r.Release? && r.session == peer.session ==> r.vips == peer.vips)
  }

  lemma PairStaysTogether(idx: Index, op: Op, peer: HubPeer)
    requires peer.vips.v6 in idx.byV6 && idx.byV6[peer.vips.v6] == peer ==> Installed(idx, peer)
    requires op.Claim? && op.peer.id == peer.id ==> op.peer.vips == peer.vips
    requires op.Release? && op.session == peer.session ==> op.vips == peer.vips
    ensures peer.vips.v6 in Do(idx, op).byV6 && Do(idx, op).byV6[peer.vips.v6] == peer ==> Installed(Do(idx, op), peer)
  {
  }

  lemma {:induction false} OnePairStaysTogether(ops: seq<Op>, peer: HubPeer)
    requires OnePair(ops, peer)
    ensures var idx := DoAll(EMPTY, ops);
            peer.vips.v6 in idx.byV6 && idx.byV6[peer.vips.v6] == peer ==> Installed(idx, peer)
  {
    if ops != [] {
      InitAndLast(ops);
      OnePairStaysTogether(ops[..|ops| - 1], peer);
      PairStaysTogether(DoAll(EMPTY, ops[..|ops| - 1]), ops[|ops| - 1], peer);
    }
  }

  /** In every run in which the peer keeps to one pair, a refused claim leaves nothing behind, whatever overlaps. */
  lemma RefusedLeaksNothing(ops: seq<Op>, peer: HubPeer)
    requires OnePair(ops, peer) && OwnNumber(ops, peer) && !ClaimOk(DoAll(EMPTY, ops), peer)
    ensures !Holds(DoAll(EMPTY, ops), peer.session)
  {
    OnePairStaysTogether(ops, peer);
    RefusedHoldsOnly6(ops, peer);
  }

  lemma DoAllTwo(idx: Index, a: Op, b: Op)
    ensures DoAll(idx, [a, b]) == Do(Do(idx, a), b)
  {
    assert [a, b][..1] == [a] && [a][..0] == [];
    assert DoAll(idx, [a]) == Do(DoAll(idx, []), a);
  }

  lemma DoAllThree(idx: Index, a: Op, b: Op, c: Op)
    ensures DoAll(idx, [a, b, c]) == Do(Do(Do(idx, a), b), c)
  {
    assert [a, b, c][..2] == [a, b];
    DoAllTwo(idx, a, b);
  }

  /**
   * Without the no-overlap hypothesis Ok does not say so: a second session of a peer that announces
   * another IPv6 address, held by someone else, changes nothing and is still told Ok.
   */
  lemma OverlapClaimsOkWithoutInstalling(first: HubPeer, second: HubPeer, other: HubPeer)
    requires first.id == second.id != other.id && first.session != second.session
    requires first.vips.v4 == second.vips.v4 != other.vips.v4
    requires first.vips.v6 != second.vips.v6 == other.vips.v6
    requires second.session != other.session
    ensures DoAll(EMPTY, [Claim(first), Claim(other), Claim(second)]) == DoAll(EMPTY, [Claim(first), Claim(other)])
    ensures ClaimOk(DoAll(EMPTY, [Claim(first), Claim(other), Claim(second)]), second)
    ensures !Holds(DoAll(EMPTY, [Claim(first), Claim(other), Claim(second)]), second.session)
  {
    DoAllThree(EMPTY, Claim(first), Claim(other), Claim(second));
    DoAllTwo(EMPTY, Claim(first), Claim(other));
  }

  /**
   * Without one fixed pair per peer an entry can outlive its session: a second session takes over the
   * IPv4 slot and leaves, so the first one's reload says "already claimed", it returns early and
   * never releases its IPv6 slot.
   */
  lemma ChangedPairLeaksASlot(first: HubPeer, second: HubPeer)
    requires first.id == second.id && first.session != second.session
    requires first.vips.v4 == second.vips.v4 && first.vips.v6 != second.vips.v6
    ensures !ClaimOk(DoAll(EMPTY, [Claim(first), Claim(second), Release(second.vips, second.session)]), first)
    ensures Holds(DoAll(EMPTY, [Claim(first), Claim(second), Release(second.vips, second.session)]), first.session)
  {
    DoAllThree(EMPTY, Claim(first), Claim(second), Release(second.vips, second.session));
    assert Do(Do(Do(EMPTY, Claim(first)), Claim(second)), Release(second.vips, second.session)).byV6[first.vips.v6] == first;
  }

  // ---------------------------------------------------------------- the loop as the source runs it

  function Concat(batches: seq<seq<Op>>): seq<Op> {
    if batches == [] then [] else Concat(batches[..|batches| - 1]) + batches[|batches| - 1]
  }

  /** The shared cell. `rivals[i]` is what other tasks store between this task's i-th load and its i-th swap. */
  class HubPeers {
    var cell: Index
    var version: nat

    constructor ()
      ensures cell == EMPTY && version == 0
    {
      cell, version := EMPTY, 0;
    }

    method OtherTasks(ops: seq<Op>)
      modifies this
      ensures cell == DoAll(old(cell), ops) && version == old(version) + |ops|
    {
      for i := 0 to |ops|
        invariant cell == DoAll(old(cell), ops[..i]) && version == old(version) + i
      {
        assert ops[..i + 1][..i] == ops[..i];
        cell, version := Do(cell, ops[i]), version + 1;
      }
      assert ops[..|ops|] == ops;
    }

    method Batches(rivals: seq<seq<Op>>)
      modifies this
      ensures cell == DoAll(old(cell), Concat(rivals))
    {
      for i := 0 to |rivals|
        invariant cell == DoAll(old(cell), Concat(rivals[..i]))
      {
        assert rivals[..i + 1][..i] == rivals[..i];
        DoAllSplit(old(cell), Concat(rivals[..i]), rivals[i]);
        OtherTasks(rivals[i]);
      }
      assert rivals[..|rivals|] == rivals;
    }

    /** `rcu` with the closure `op`: retries while a rival stored between the load and the swap. */
    method Update(op: Op, rivals: seq<seq<Op>>) returns (ghost before: seq<Op>, ghost after: seq<Op>)
      modifies this
      ensures Concat(rivals) == before + after
      ensures cell == DoAll(Do(DoAll(old(cell), before), op), after)
    {
      var i := 0;
      var snap, seen := cell, version;
      var done := |rivals| == 0;
      while !done
        invariant 0 <= i <= |rivals|
        invariant cell == DoAll(old(cell), Concat(rivals[..i])) && snap == cell && seen == version
        invariant !done ==> i < |rivals|
        decreases |rivals| - i, !done
      {
        assert rivals[..i + 1][..i] == rivals[..i];
        DoAllSplit(old(cell), Concat(rivals[..i]), rivals[i]);
        OtherTasks(rivals[i]);
        done := version == seen || i + 1 == |rivals|;
        i := i + 1;
        snap, seen := cell, version;
      }
      cell, version := Do(snap, op), version + 1;
      before, after := Concat(rivals[..i]), Concat(rivals[i..]);
      ConcatSplit(rivals, i);
      Batches(rivals[i..]);
    }

    /**
     * `try_claim_peer`: Ok is decided by reloading the table, not by what `rcu` returned. Other sessions of the same
     * peer may be among the rivals; without them Ok holds exactly when the swap installed the entry.
     */
    method TryClaimPeer(peer: HubPeer, rivals: seq<seq<Op>>) returns (ok: bool)
      requires NotOwn(Concat(rivals), peer)
      modifies this
      ensures exists before, after :: Concat(rivals) == before + after
                && cell == DoAll(ClaimIn(DoAll(old(cell), before), peer), after)
                && (ok <==> Keeps4(ClaimIn(DoAll(old(cell), before), peer), after, peer))
                && (Installed(cell, peer) <==> !Foreign(DoAll(old(cell), before), peer)
                                               && !Displaced(ClaimIn(DoAll(old(cell), before), peer), after, peer))
                && (NoEntryOf(old(cell), peer.id) && Others(Concat(rivals), peer) ==>
                      (ok <==> !Foreign(DoAll(old(cell), before), peer)) && (ok <==> Installed(cell, peer)))
    {
      ghost var before, after := Update(Claim(peer), rivals);
      ok := ClaimOk(cell, peer);
      ClaimOkExactly(DoAll(old(cell), before), peer, after);
      if NoEntryOf(old(cell), peer.id) && Others(Concat(rivals), peer) {
        OthersChangeNothing(old(cell), peer, before);
        ClaimOkIffInstalled(DoAll(old(cell), before), peer, after);
      }
    }

    /** `peers_remove_if_owned`. */
    method RemoveIfOwned(vips: Vips, session: nat, rivals: seq<seq<Op>>) returns (empty: bool)
      modifies this
      ensures exists before, after :: Concat(rivals) == before + after
                && cell == DoAll(ReleaseIn(DoAll(old(cell), before), vips, session), after)
      ensures empty <==> vips.v4 !in cell.byV4 && vips.v6 !in cell.byV6
    {
      ghost var before, after := Update(Release(vips, session), rivals);
      empty := SlotsEmpty(cell, vips);
    }
  }

  lemma {:induction false} ConcatSplit(rivals: seq<seq<Op>>, i: nat)
    requires i <= |rivals|
    ensures Concat(rivals) == Concat(rivals[..i]) + Concat(rivals[i..])
  {
    if i == |rivals| {
      assert rivals[..i] == rivals;
    } else {
      var n := |rivals| - 1;
      ConcatSplit(rivals[..n], i);
      assert rivals[..n][..i] == rivals[..i];
      assert rivals[..n][i..] == rivals[i..][..n - i];
      assert rivals[i..][n - i] == rivals[n];
    }
  }
}
