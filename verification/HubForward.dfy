/** The hub's forwarding of packets, and where a packet can get in any run (src/tun/hub.rs:144-249). */
module HubForward {
  import opened Net
  import opened HubIndex
  import opened PacketHeaders

  function LookupHubPeer(idx: Index, pkt: Packet): Option<HubPeer> {
    if Ipv4Dst(pkt).Some? then
      if Ipv4Dst(pkt).value in idx.byV4 then Some(idx.byV4[Ipv4Dst(pkt).value]) else None
    else if Ipv6Dst(pkt).Some? then
      if Ipv6Dst(pkt).value in idx.byV6 then Some(idx.byV6[Ipv6Dst(pkt).value]) else None
    else None
  }

  /** `mesh_dst_ok`: an address of the mesh, and not the sender's own. */
  predicate MeshDstOk(pkt: Packet, sender: Vips) {
    DstInMesh(pkt) && !DestinedTo(pkt, sender)
  }

  /** What becomes of one packet at the hub. */
  datatype Verdict = ToTun | Enqueue(peer: HubPeer) | Drop

  function FromSpoke(idx: Index, own: Vips, peer: HubPeer, pkt: Packet): Verdict {
    if !ComesFrom(pkt, peer.vips) then Drop
    else if DestinedTo(pkt, own) then ToTun
    else if !MeshDstOk(pkt, peer.vips) || LookupHubPeer(idx, pkt).None? then Drop
    else Enqueue(LookupHubPeer(idx, pkt).value)
  }

  function FromTun(idx: Index, own: Vips, pkt: Packet): Verdict {
    if DestinedTo(pkt, own) || !DstInMesh(pkt) || LookupHubPeer(idx, pkt).None? then Drop
    else Enqueue(LookupHubPeer(idx, pkt).value)
  }

  const TUN_PKT_QUEUE := 256

  function Enqueued(outbound: map<nat, seq<Packet>>, session: nat, pkt: Packet): map<nat, seq<Packet>> {
    if session in outbound && |outbound[session]| < TUN_PKT_QUEUE
    then outbound[session := outbound[session] + [pkt]]
    else outbound
  }

  /** The index has q under the packet's destination address. */
  predicate ListsFor(idx: Index, pkt: Packet, q: HubPeer) {
    || (exists k :: Ipv4Dst(pkt) == Some(k) && k in idx.byV4 && idx.byV4[k] == q)
    || (exists k :: Ipv6Dst(pkt) == Some(k) && k in idx.byV6 && idx.byV6[k] == q)
  }

  /** The session's sender task is alive and its queue has room. */
  predicate HasRoom(outbound: map<nat, seq<Packet>>, session: nat) {
    session in outbound && |outbound[session]| < 256
  }

  /** The hub's packet tasks around the queues they share. */
  class HubPlane {
    const own: Vips
    /** What a load of the shared index gives at the moment. */
    var idx: Index
    /** Packets on their way into the hub's TUN device. */
    var tun: seq<Packet>
    /** One bounded queue for each live sender task, by session. */
    var outbound: map<nat, seq<Packet>>

    ghost predicate QueuesBounded()
      reads this
    {
      forall n :: n in outbound ==> |outbound[n]| <= TUN_PKT_QUEUE
    }

    constructor (own: Vips)
      ensures this.own == own && idx == EMPTY && tun == [] && outbound == map[] && QueuesBounded()
    {
      this.own, idx, tun, outbound := own, EMPTY, [], map[];
    }

    /** `enqueue_peer`: dropped when the queue is full or its sender task has ended. */
    method EnqueuePeer(peer: HubPeer, pkt: Packet)
      modifies this
      ensures idx == old(idx) && tun == old(tun)
      ensures outbound == Enqueued(old(outbound), peer.session, pkt)
      ensures outbound.Keys == old(outbound).Keys
      ensures forall n :: n in outbound && n != peer.session ==> outbound[n] == old(outbound)[n]
      ensures peer.session in outbound ==>
                && old(outbound)[peer.session] <= outbound[peer.session] <= old(outbound)[peer.session] + [pkt]
                && (|old(outbound)[peer.session]| < TUN_PKT_QUEUE <==> outbound[peer.session] != old(outbound)[peer.session])
      ensures old(QueuesBounded()) ==> QueuesBounded()
    {
      if peer.session in outbound && |outbound[peer.session]| < TUN_PKT_QUEUE {
        outbound := outbound[peer.session := outbound[peer.session] + [pkt]];
      }
    }

    /** One round of `hub_peer_to_mesh`. */
    method TakeDatagram(peer: HubPeer, pkt: Packet)
      modifies this
      ensures idx == old(idx)
      ensures var v := FromSpoke(idx, own, peer, pkt);
              && tun == (if v.ToTun? then old(tun) + [pkt] else old(tun))
              && outbound == (if v.Enqueue? then Enqueued(old(outbound), v.peer.session, pkt) else old(outbound))
      ensures tun == old(tun) + if ComesFrom(pkt, peer.vips) && DestinedTo(pkt, own) then [pkt] else []
      ensures forall q :: ListsFor(idx, pkt, q) && HasRoom(old(outbound), q.session) && DstInMesh(pkt)
                          && ComesFrom(pkt, peer.vips) && !DestinedTo(pkt, own) && !DestinedTo(pkt, peer.vips) ==>
                outbound == old(outbound)[q.session := old(outbound)[q.session] + [pkt]]
      ensures outbound != old(outbound) ==>
                && DstInMesh(pkt) && ComesFrom(pkt, peer.vips) && !DestinedTo(pkt, own) && !DestinedTo(pkt, peer.vips)
                && exists q :: ListsFor(idx, pkt, q) && HasRoom(old(outbound), q.session)
      ensures old(QueuesBounded()) ==> QueuesBounded()
    {
      if !ComesFrom(pkt, peer.vips) {
        return;
      }
      if DestinedTo(pkt, own) {
        tun := tun + [pkt];
        return;
      }
      if !MeshDstOk(pkt, peer.vips) {
        return;
      }
      var other := LookupHubPeer(idx, pkt);
      if other.None? {
        return;
      }
      EnqueuePeer(other.value, pkt);
    }

    /** One round of `hub_tun_to_peers`. */
    method TakeFromTun(pkt: Packet)
      modifies this
      ensures idx == old(idx) && tun == old(tun)
      ensures var v := FromTun(idx, own, pkt);
              outbound == if v.Enqueue? then Enqueued(old(outbound), v.peer.session, pkt) else old(outbound)
      ensures forall q :: ListsFor(idx, pkt, q) && HasRoom(old(outbound), q.session)
                          && DstInMesh(pkt) && !DestinedTo(pkt, own) ==>
                outbound == old(outbound)[q.session := old(outbound)[q.session] + [pkt]]
      ensures forall q :: Installed(idx, q) && UsableVips(own, q.vips) && DestinedTo(pkt, q.vips)
                          && HasRoom(old(outbound), q.session) ==>
                outbound == old(outbound)[q.session := old(outbound)[q.session] + [pkt]]
      ensures outbound != old(outbound) ==>
                && DstInMesh(pkt) && !DestinedTo(pkt, own)
                && exists q :: ListsFor(idx, pkt, q) && HasRoom(old(outbound), q.session)
      ensures old(QueuesBounded()) ==> QueuesBounded()
    {
      if DestinedTo(pkt, own) {
        return;
      }
      var skip;
      if Ipv4Dst(pkt).Some? {
        skip := !VipInMesh(Ipv4Dst(pkt).value);
      } else if Ipv6Dst(pkt).Some? {
        skip := !Vip6InMesh(Ipv6Dst(pkt).value);
      } else {
        skip := true;
      }
      if skip {
        return;
      }
      var peer := LookupHubPeer(idx, pkt);
      if peer.Some? {
        EnqueuePeer(peer.value, pkt);
      }
    }
  }

  // ---------------------------------------------------------------- runs of the whole star

  datatype Node = Hub | Spoke(session: nat)

  /** Where a packet is. The code hands one buffer on, so a packet is in one place at a time. */
  datatype Place = GoingUp(session: nat) | Queued(session: nat) | GoingDown(session: nat) | Delivered(node: Node) | Gone

  datatype Parcel = Parcel(bytes: Packet, source: Node, hops: nat, at: Place)

  datatype Star = Star(own: Vips, idx: Index, sessions: map<nat, HubPeer>, parcels: seq<Parcel>)

  datatype Step =
    | Attach(peer: HubPeer)
    | Update(op: Op)
    /** A spoke may put any bytes whatever into a datagram. */
    | SpokeSends(session: nat, bytes: Packet)
    | HubSends(bytes: Packet)
    /** Lost on the way, refused by a full queue, or too big for the path. */
    | Lose(i: nat)
    | HubTakes(i: nat)
    | Transmit(i: nat)
    | SpokeTakes(i: nat)

  predicate Enabled(s: Star, step: Step) {
    match step
    case Attach(peer) => peer.session !in s.sessions && UsableVips(s.own, peer.vips)
    case Update(op) => op.Claim? ==> op.peer.session in s.sessions && s.sessions[op.peer.session] == op.peer
    case SpokeSends(session, _) => session in s.sessions
    case HubSends(_) => true
    case Lose(i) => i < |s.parcels| && !s.parcels[i].at.Delivered?
    case HubTakes(i) => i < |s.parcels| && s.parcels[i].at.GoingUp? && s.parcels[i].at.session in s.sessions
    case Transmit(i) => i < |s.parcels| && s.parcels[i].at.Queued?
    case SpokeTakes(i) => i < |s.parcels| && s.parcels[i].at.GoingDown?
  }

  function Put(v: Verdict): Place {
    match v
    case ToTun => Delivered(Hub)
    case Enqueue(peer) => Queued(peer.session)
    case Drop => Gone
  }

  /** The spoke's filter on what the hub sends it. */
  predicate SpokeAccepts(pkt: Packet, hub: Vips) {
    if Ipv4Src(pkt).Some? then VipInMesh(Ipv4Src(pkt).value) || Ipv4Src(pkt).value == hub.v4
    else Ipv6Src(pkt).Some? && (Vip6InMesh(Ipv6Src(pkt).value) || Ipv6Src(pkt).value == hub.v6)
  }

  function Next(s: Star, step: Step): Star
    requires Enabled(s, step)
  {
    match step
    case Attach(peer) => s.(sessions := s.sessions[peer.session := peer])
    case Update(op) => s.(idx := Do(s.idx, op))
    case SpokeSends(session, bytes) => s.(parcels := s.parcels + [Parcel(bytes, Spoke(session), 1, GoingUp(session))])
    case HubSends(bytes) => s.(parcels := s.parcels + [Parcel(bytes, Hub, 0, Put(FromTun(s.idx, s.own, bytes)))])
    case Lose(i) => s.(parcels := s.parcels[i := s.parcels[i].(at := Gone)])
    case HubTakes(i) =>
      var p := s.parcels[i];
      var peer := s.sessions[p.at.session];
      s.(parcels := s.parcels[i := p.(at := Put(FromSpoke(s.idx, s.own, peer, p.bytes)))])
    case Transmit(i) =>
      var p := s.parcels[i];
      s.(parcels := s.parcels[i := p.(hops := p.hops + 1, at := GoingDown(p.at.session))])
    case SpokeTakes(i) =>
      var p := s.parcels[i];
      s.(parcels := s.parcels[i := p.(at := if SpokeAccepts(p.bytes, s.own) then Delivered(Spoke(p.at.session)) else Gone)])
  }

  /** The state after the steps, if every one of them was possible. */
  function Run(own: Vips, steps: seq<Step>): Option<Star> {
    if steps == [] then Some(Star(own, EMPTY, map[], []))
    else
      var before := Run(own, steps[..|steps| - 1]);
      if before.None? || !Enabled(before.value, steps[|steps| - 1]) then None
      else Some(Next(before.value, steps[|steps| - 1]))
  }

  // ---------------------------------------------------------------- what every run keeps

  ghost predicate KnownSessions(s: Star) {
    && (forall n :: n in s.sessions ==> s.sessions[n].session == n && UsableVips(s.own, s.sessions[n].vips))
    && (forall k :: k in s.idx.byV4 ==> Known(s, s.idx.byV4[k]))
    && (forall k :: k in s.idx.byV6 ==> Known(s, s.idx.byV6[k]))
  }

  ghost predicate Known(s: Star, peer: HubPeer) {
    peer.session in s.sessions && s.sessions[peer.session] == peer
  }

  /** The packet was sent by session n under the address it announced. */
  ghost predicate HonestlyFrom(s: Star, p: Parcel, n: nat) {
    p.source == Spoke(n) && n in s.sessions && ComesFrom(p.bytes, s.sessions[n].vips)
  }

  /** The packet may be at session t: it is for t's address, and from the hub or from another session's own address. */
  ghost predicate MayReach(s: Star, p: Parcel, t: nat, hops: nat) {
    && t in s.sessions && DestinedTo(p.bytes, s.sessions[t].vips) && !DestinedTo(p.bytes, s.own)
    && (p.source == Hub || (p.source != Spoke(t) && HonestlyFrom(s, p, p.source.session)))
    && p.hops == hops + (if p.source == Hub then 0 else 1)
  }

  ghost predicate Sound(s: Star, p: Parcel) {
    && p.hops <= 2
    && match p.at
       case GoingUp(n) => p.source == Spoke(n) && p.hops == 1
       case Queued(t) => MayReach(s, p, t, 0)
       case GoingDown(t) => MayReach(s, p, t, 1)
       case Delivered(node) =>
         (match node
          case Hub => p.source.Spoke? && HonestlyFrom(s, p, p.source.session) && DestinedTo(p.bytes, s.own) && p.hops == 1
          case Spoke(t) => MayReach(s, p, t, 1) && SpokeAccepts(p.bytes, s.own))
       case Gone => true
  }

  ghost predicate AllSound(s: Star) {
    forall i :: 0 <= i < |s.parcels| ==> Sound(s, s.parcels[i])
  }

  lemma LookupIsHolder(s: Star, pkt: Packet)
    requires UnderOwnVips(s.idx) && KnownSessions(s)
    ensures var q := LookupHubPeer(s.idx, pkt);
            q.Some? ==> Known(s, q.value) && DestinedTo(pkt, q.value.vips)
  {
  }

  lemma FromSpokeIsSound(s: Star, p: Parcel, n: nat)
    requires UnderOwnVips(s.idx) && KnownSessions(s) && n in s.sessions
    requires p.at == GoingUp(n) && Sound(s, p)
    ensures Sound(s, p.(at := Put(FromSpoke(s.idx, s.own, s.sessions[n], p.bytes))))
  {
    LookupIsHolder(s, p.bytes);
  }

  lemma FromTunIsSound(s: Star, pkt: Packet)
    requires UnderOwnVips(s.idx) && KnownSessions(s)
    ensures Sound(s, Parcel(pkt, Hub, 0, Put(FromTun(s.idx, s.own, pkt))))
  {
    LookupIsHolder(s, pkt);
  }

  lemma SoundStaysSound(s: Star, t: Star, p: Parcel)
    requires Sound(s, p) && t.own == s.own
    requires forall n :: n in s.sessions ==> n in t.sessions && t.sessions[n] == s.sessions[n]
    ensures Sound(t, p)
  {
  }

  lemma SessionsOnlyGrow(s: Star, step: Step)
    requires Enabled(s, step)
    ensures Next(s, step).own == s.own
    ensures forall n :: n in s.sessions ==> n in Next(s, step).sessions && Next(s, step).sessions[n] == s.sessions[n]
  {
  }

  lemma StepKeepsIndex(s: Star, step: Step)
    requires Enabled(s, step) && UnderOwnVips(s.idx) && KnownSessions(s)
    ensures UnderOwnVips(Next(s, step).idx) && KnownSessions(Next(s, step))
  {
    if step.Update? {
      UpdateSafety(s.idx, step.op);
    }
  }

  lemma StepKeepsParcel(s: Star, step: Step, i: nat)
    requires Enabled(s, step) && UnderOwnVips(s.idx) && KnownSessions(s) && AllSound(s)
    requires i < |Next(s, step).parcels|
    ensures Sound(s, Next(s, step).parcels[i])
  {
    assert i < |s.parcels| ==> Sound(s, s.parcels[i]);
    match step
    case HubSends(bytes) => FromTunIsSound(s, bytes);
    case HubTakes(j) =>
      if i == j {
        FromSpokeIsSound(s, s.parcels[j], s.parcels[j].at.session);
      }
    case _ =>
  }

  /** Over every run, each packet is only where it may be. */
  lemma {:induction false} DeliveryIsSound(own: Vips, steps: seq<Step>)
    requires Run(own, steps).Some?
    ensures var s := Run(own, steps).value;
            s.own == own && UnderOwnVips(s.idx) && KnownSessions(s) && AllSound(s)
  {
    if steps != [] {
      var init, last := steps[..|steps| - 1], steps[|steps| - 1];
      DeliveryIsSound(own, init);
      var s := Run(own, init).value;
      var t := Next(s, last);
      StepKeepsIndex(s, last);
      SessionsOnlyGrow(s, last);
      forall i | 0 <= i < |t.parcels| ensures Sound(t, t.parcels[i]) {
        StepKeepsParcel(s, last, i);
        SoundStaysSound(s, t, t.parcels[i]);
      }
    }
  }

  /** Nothing on the way changes a packet, and one that has arrived or is lost stays where it is. */
  lemma {:induction false} UnmodifiedOnTheWay(own: Vips, steps: seq<Step>, n: nat, i: nat)
    requires Run(own, steps).Some? && n <= |steps|
    ensures Run(own, steps[..n]).Some?
    ensures var s, t := Run(own, steps[..n]).value, Run(own, steps).value;
            i < |s.parcels| ==>
              && i < |t.parcels| && t.parcels[i].bytes == s.parcels[i].bytes && t.parcels[i].source == s.parcels[i].source
              && (s.parcels[i].at.Delivered? || s.parcels[i].at.Gone? ==> t.parcels[i] == s.parcels[i])
  {
    if n == |steps| {
      assert steps[..n] == steps;
    } else {
      var init := steps[..|steps| - 1];
      UnmodifiedOnTheWay(own, init, n, i);
      assert init[..n] == steps[..n];
    }
  }

  /** What one spoke sends another through the hub passes the receiving spoke's filter. */
  lemma RelayedIsAccepted(own: Vips, steps: seq<Step>, i: nat)
    requires Run(own, steps).Some?
    requires var s := Run(own, steps).value;
             i < |s.parcels| && s.parcels[i].at.GoingDown? && s.parcels[i].source != Hub
    ensures SpokeAccepts(Run(own, steps).value.parcels[i].bytes, own)
  {
    DeliveryIsSound(own, steps);
    var s := Run(own, steps).value;
    assert Sound(s, s.parcels[i]);
    var n := s.parcels[i].source.session;
    assert UsableVips(own, s.sessions[n].vips);
  }

  /** While a session is attached it gets every packet for it that another spoke sends and nothing loses. */
  lemma HolderIsReached(s: Star, i: nat, q: HubPeer)
    requires KnownSessions(s) && Installed(s.idx, q)
    requires i < |s.parcels| && s.parcels[i].at.GoingUp? && s.parcels[i].at.session in s.sessions
    requires var p := s.parcels[i]; var sender := s.sessions[p.at.session].vips;
             ComesFrom(p.bytes, sender) && DestinedTo(p.bytes, q.vips) && !DestinedTo(p.bytes, sender)
    ensures var taken := Next(s, HubTakes(i));
            && taken.parcels[i].at == Queued(q.session)
            && Enabled(taken, Transmit(i)) && Enabled(Next(taken, Transmit(i)), SpokeTakes(i))
            && Next(Next(taken, Transmit(i)), SpokeTakes(i)).parcels[i].at == Delivered(Spoke(q.session))
  {
    var sender := s.sessions[s.parcels[i].at.session];
    assert UsableVips(s.own, sender.vips);
    assert Known(s, s.idx.byV4[q.vips.v4]);
    assert UsableVips(s.own, s.sessions[q.session].vips);
  }

  /** The spoke's filter passes exactly packets whose source is the hub's or begins like the mesh's addresses. */
  lemma FilterIsTheMesh(pkt: Packet, hub: Vips)
    ensures SpokeAccepts(pkt, hub) <==>
            || (exists k :: Ipv4Src(pkt) == Some(k) && (k == hub.v4 || BE4(k)[..2] == [172, 24]))
            || (exists k :: Ipv6Src(pkt) == Some(k)
                            && (k == hub.v6 || BE16(k)[..8] == [0xFD, 0x24, 0xAC, 0x18, 0, 0, 0, 0]))
  {
    if Ipv4Src(pkt).Some? {
      MeshOctets(Ipv4Src(pkt).value, hub.v6);
    } else if Ipv6Src(pkt).Some? {
      MeshOctets(hub.v4, Ipv6Src(pkt).value);
    }
  }

  /** The mirror image: a packet of the hub's own for an attached session gets there when the spoke's filter passes it. */
  lemma HubReachesHolder(s: Star, q: HubPeer, pkt: Packet)
    requires KnownSessions(s) && Installed(s.idx, q) && DestinedTo(pkt, q.vips)
    ensures var sent, i := Next(s, HubSends(pkt)), |s.parcels|;
            && sent.parcels == s.parcels + [Parcel(pkt, Hub, 0, Queued(q.session))]
            && Enabled(sent, Transmit(i)) && Enabled(Next(sent, Transmit(i)), SpokeTakes(i))
            && Next(Next(sent, Transmit(i)), SpokeTakes(i)).parcels[i].at
               == if SpokeAccepts(pkt, s.own) then Delivered(Spoke(q.session)) else Gone
  {
    assert Known(s, s.idx.byV4[q.vips.v4]);
    assert UsableVips(s.own, s.sessions[q.session].vips);
  }

  /** What the hub does with a packet of its own: it is queued for t exactly when the index has t for it, or it is gone. */
  lemma HubSendsExactly(s: Star, pkt: Packet)
    ensures var at := Next(s, HubSends(pkt)).parcels[|s.parcels|].at;
            && (at.Queued? || at.Gone?)
            && (forall t :: at == Queued(t) <==>
                  DstInMesh(pkt) && !DestinedTo(pkt, s.own) && exists q :: ListsFor(s.idx, pkt, q) && q.session == t)
  {
    ListsForIsLookup(s.idx, pkt);
  }

  lemma ListsForIsLookup(idx: Index, pkt: Packet)
    ensures forall q :: ListsFor(idx, pkt, q) <==> LookupHubPeer(idx, pkt) == Some(q)
  {
  }

  /** And with a spoke's packet: delivered to the hub, queued, or gone, each under its exact condition. */
  lemma HubTakesExactly(s: Star, i: nat)
    requires Enabled(s, HubTakes(i))
    ensures var pkt, sender := s.parcels[i].bytes, s.sessions[s.parcels[i].at.session].vips;
            var at := Next(s, HubTakes(i)).parcels[i].at;
            && (at == Delivered(Hub) || at.Queued? || at.Gone?)
            && (at == Delivered(Hub) <==> ComesFrom(pkt, sender) && DestinedTo(pkt, s.own))
            && (forall t :: at == Queued(t) <==>
                  && ComesFrom(pkt, sender) && DstInMesh(pkt) && !DestinedTo(pkt, s.own) && !DestinedTo(pkt, sender)
                  && exists q :: ListsFor(s.idx, pkt, q) && q.session == t)
  {
    ListsForIsLookup(s.idx, s.parcels[i].bytes);
  }
}
