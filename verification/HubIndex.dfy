/** The hub's dual-stack peer index (src/tun/hub.rs) and what every run of claims and releases keeps. */
module HubIndex {
  import opened Net

  /** One attached spoke. Its connection and outbound queue are identified by the session number. */
  datatype HubPeer = HubPeer(id: EndpointId, session: nat, vips: Vips, hidden: bool)

  datatype Index = Index(byV4: map<Ip4, HubPeer>, byV6: map<Ip6, HubPeer>)

  /** 172.24.0.0/16. */
  predicate VipInMesh(ip: Ip4) {
    ip / 0x1_0000 == 0xAC18
  }

  /** fd24:ac18::/64. */
  predicate Vip6InMesh(ip: Ip6) {
    ip / 0x1_0000_0000_0000_0000 == 0xFD24_AC18_0000_0000
  }

  /** The hub's check on the pair a spoke announces, before anything is claimed for it. */
  predicate UsableVips(own: Vips, peer: Vips) {
    peer.v4 != own.v4 && peer.v6 != own.v6 && VipInMesh(peer.v4) && Vip6InMesh(peer.v6)
  }

  const EMPTY := Index(map[], map[])

  /** What a session task does to the shared index: the two closures passed to `rcu`. */
  datatype Op = Claim(peer: HubPeer) | Release(vips: Vips, session: nat)

  predicate Foreign(idx: Index, peer: HubPeer) {
    || (peer.vips.v4 in idx.byV4 && idx.byV4[peer.vips.v4].id != peer.id)
    || (peer.vips.v6 in idx.byV6 && idx.byV6[peer.vips.v6].id != peer.id)
  }

  function ClaimIn(idx: Index, peer: HubPeer): Index {
    if Foreign(idx, peer) then idx
    else Index(idx.byV4[peer.vips.v4 := peer], idx.byV6[peer.vips.v6 := peer])
  }

  predicate OwnsV4(idx: Index, vips: Vips, session: nat) {
    vips.v4 in idx.byV4 && idx.byV4[vips.v4].session == session
  }

  predicate OwnsV6(idx: Index, vips: Vips, session: nat) {
    vips.v6 in idx.byV6 && idx.byV6[vips.v6].session == session
  }

  function ReleaseIn(idx: Index, vips: Vips, session: nat): Index {
    Index(if OwnsV4(idx, vips, session) then idx.byV4 - {vips.v4} else idx.byV4,
          if OwnsV6(idx, vips, session) then idx.byV6 - {vips.v6} else idx.byV6)
  }

  function Do(idx: Index, op: Op): Index {
    match op
    case Claim(peer) => ClaimIn(idx, peer)
    case Release(vips, session) => ReleaseIn(idx, vips, session)
  }

  function DoAll(idx: Index, ops: seq<Op>): Index {
    if ops == [] then idx else Do(DoAll(idx, ops[..|ops| - 1]), ops[|ops| - 1])
  }

  /** The check after the reload in `try_claim_peer`; it looks at the IPv4 slot only. */
  predicate ClaimOk(idx: Index, peer: HubPeer) {
    peer.vips.v4 in idx.byV4 && idx.byV4[peer.vips.v4].id == peer.id
  }

  /** The flag `peers_remove_if_owned` returns after its reload. */
  predicate SlotsEmpty(idx: Index, vips: Vips) {
    vips.v4 !in idx.byV4 && vips.v6 !in idx.byV6
  }

  ghost predicate Installed(idx: Index, peer: HubPeer) {
    && peer.vips.v4 in idx.byV4 && idx.byV4[peer.vips.v4] == peer
    && peer.vips.v6 in idx.byV6 && idx.byV6[peer.vips.v6] == peer
  }

  ghost predicate Holds(idx: Index, session: nat) {
    || (exists k :: k in idx.byV4 && idx.byV4[k].session == session)
    || (exists k :: k in idx.byV6 && idx.byV6[k].session == session)
  }

  /** Every entry sits under its own virtual addresses. */
  ghost predicate UnderOwnVips(idx: Index) {
    && (forall k :: k in idx.byV4 ==> idx.byV4[k].vips.v4 == k)
    && (forall k :: k in idx.byV6 ==> idx.byV6[k].vips.v6 == k)
  }

  /** One fixed address pair per peer id. */
  ghost predicate FixedPairs(ops: seq<Op>, pair: EndpointId -> Vips) {
    forall c :: c in ops && c.Claim? ==> c.peer.vips == pair(c.peer.id)
  }

  /** A release names the pair its own session claimed. */
  ghost predicate OwnReleases(ops: seq<Op>) {
    forall c, r :: c in ops && r in ops && c.Claim? && r.Release? && c.peer.session == r.session ==>
                     c.peer.vips == r.vips
  }

  /** Both families hold the same sessions. */
  ghost predicate Mirrored(idx: Index) {
    && UnderOwnVips(idx)
    && (forall k :: k in idx.byV4 ==> Installed(idx, idx.byV4[k]))
    && (forall k :: k in idx.byV6 ==> Installed(idx, idx.byV6[k]))
  }

  /**
   * One update, whatever the index: entries stay under their own addresses, a slot never passes
   * from one peer id straight to another, and a release leaves every other session's entry alone.
   */
  lemma UpdateSafety(idx: Index, op: Op)
    requires UnderOwnVips(idx)
    ensures UnderOwnVips(Do(idx, op))
    ensures forall k :: k in idx.byV4 && k in Do(idx, op).byV4 ==> idx.byV4[k].id == Do(idx, op).byV4[k].id
    ensures forall k :: k in idx.byV6 && k in Do(idx, op).byV6 ==> idx.byV6[k].id == Do(idx, op).byV6[k].id
    ensures op.Release? ==> forall k :: k in idx.byV4 && idx.byV4[k].session != op.session ==>
                                          k in Do(idx, op).byV4 && Do(idx, op).byV4[k] == idx.byV4[k]
    ensures op.Release? ==> forall k :: k in idx.byV6 && idx.byV6[k].session != op.session ==>
                                          k in Do(idx, op).byV6 && Do(idx, op).byV6[k] == idx.byV6[k]
    ensures op.Claim? ==> idx.byV4.Keys <= Do(idx, op).byV4.Keys && idx.byV6.Keys <= Do(idx, op).byV6.Keys
  {
  }

  /** The slot is free for the peer: nobody stands there, or an earlier session of its own. */
  predicate Free(idx: Index, peer: HubPeer) {
    && (peer.vips.v4 in idx.byV4 ==> idx.byV4[peer.vips.v4].id == peer.id)
    && (peer.vips.v6 in idx.byV6 ==> idx.byV6[peer.vips.v6].id == peer.id)
  }

  /** A claim takes both slots when both are free and otherwise none; whatever else stands in the index stays. */
  lemma ClaimExactly(idx: Index, peer: HubPeer)
    ensures var after := Do(idx, Claim(peer));
            && (Free(idx, peer) ==> Installed(after, peer)) && (!Free(idx, peer) ==> after == idx)
            && (forall k :: k != peer.vips.v4 ==>
                  (k in after.byV4 <==> k in idx.byV4) && (k in idx.byV4 ==> after.byV4[k] == idx.byV4[k]))
            && (forall k :: k != peer.vips.v6 ==>
                  (k in after.byV6 <==> k in idx.byV6) && (k in idx.byV6 ==> after.byV6[k] == idx.byV6[k]))
  {
  }

  /** A release takes out each of the two slots if it still holds the session, and nothing else. */
  lemma ReleaseExactly(idx: Index, vips: Vips, session: nat)
    ensures var after := Do(idx, Release(vips, session));
            && (forall k :: k in after.byV4 <==> k in idx.byV4 && !(k == vips.v4 && idx.byV4[k].session == session))
            && (forall k :: k in after.byV6 <==> k in idx.byV6 && !(k == vips.v6 && idx.byV6[k].session == session))
            && (forall k :: k in after.byV4 ==> after.byV4[k] == idx.byV4[k])
            && (forall k :: k in after.byV6 ==> after.byV6[k] == idx.byV6[k])
  {
  }

  lemma {:induction false} RunUnderOwnVips(ops: seq<Op>)
    ensures UnderOwnVips(DoAll(EMPTY, ops))
  {
    if ops != [] {
      RunUnderOwnVips(ops[..|ops| - 1]);
      UpdateSafety(DoAll(EMPTY, ops[..|ops| - 1]), ops[|ops| - 1]);
    }
  }

  /** The index after the first n operations of a run. */
  function After(ops: seq<Op>, n: nat): Index
    requires n <= |ops|
  {
    DoAll(EMPTY, ops[..n])
  }

  lemma AfterStep(ops: seq<Op>, n: nat)
    requires 0 < n <= |ops|
    ensures After(ops, n) == Do(After(ops, n - 1), ops[n - 1])
    ensures UnderOwnVips(After(ops, n - 1))
  {
    assert ops[..n][..n - 1] == ops[..n - 1];
    RunUnderOwnVips(ops[..n - 1]);
  }

  /** In any run, an IPv4 slot that another peer holds later was empty at some moment in between. */
  lemma {:induction false} HandoverThroughEmpty(ops: seq<Op>, i: nat, j: nat, k: Ip4)
    requires i <= j <= |ops| && k in After(ops, i).byV4 && k in After(ops, j).byV4
    requires After(ops, i).byV4[k].id != After(ops, j).byV4[k].id
    ensures exists m :: i < m < j && k !in After(ops, m).byV4
    decreases j
  {
    AfterStep(ops, j);
    UpdateSafety(After(ops, j - 1), ops[j - 1]);
    if k in After(ops, j - 1).byV4 {
      HandoverThroughEmpty(ops, i, j - 1, k);
      var m :| i < m < j - 1 && k !in After(ops, m).byV4;
    }
  }

  /** The same for an IPv6 slot. */
  lemma {:induction false} HandoverThroughEmpty6(ops: seq<Op>, i: nat, j: nat, k: Ip6)
    requires i <= j <= |ops| && k in After(ops, i).byV6 && k in After(ops, j).byV6
    requires After(ops, i).byV6[k].id != After(ops, j).byV6[k].id
    ensures exists m :: i < m < j && k !in After(ops, m).byV6
    decreases j
  {
    AfterStep(ops, j);
    UpdateSafety(After(ops, j - 1), ops[j - 1]);
    if k in After(ops, j - 1).byV6 {
      HandoverThroughEmpty6(ops, i, j - 1, k);
      var m :| i < m < j - 1 && k !in After(ops, m).byV6;
    }
  }

  ghost predicate ClaimedIn(ops: seq<Op>, peer: HubPeer) {
    Claim(peer) in ops
  }

  ghost predicate FromClaims(idx: Index, ops: seq<Op>) {
    && (forall k :: k in idx.byV4 ==> ClaimedIn(ops, idx.byV4[k]))
    && (forall k :: k in idx.byV6 ==> ClaimedIn(ops, idx.byV6[k]))
  }

  lemma InitAndLast(ops: seq<Op>)
    requires ops != []
    ensures ops[|ops| - 1] in ops && forall o :: o in ops[..|ops| - 1] ==> o in ops
    ensures forall p :: ClaimedIn(ops[..|ops| - 1], p) ==> ClaimedIn(ops, p)
  {
  }

  /** Every entry of the index was put there by a claim of the run. */
  lemma {:induction false} EntriesComeFromClaims(ops: seq<Op>)
    ensures FromClaims(DoAll(EMPTY, ops), ops)
  {
    if ops != [] {
      EntriesComeFromClaims(ops[..|ops| - 1]);
      InitAndLast(ops);
    }
  }

  /**
   * After a session's release nothing brings it back: when the session claims nothing after its
   * release at position n, its entries are gone at the end of the run, however long it goes on.
   */
  lemma {:induction false} ReleasedNeverReturns(ops: seq<Op>, n: nat)
    requires n < |ops| && ops[n].Release? && OwnReleases(ops)
    requires forall i :: n < i < |ops| && ops[i].Claim? ==> ops[i].peer.session != ops[n].session
    ensures !Holds(DoAll(EMPTY, ops), ops[n].session)
  {
    var init := ops[..|ops| - 1];
    InitAndLast(ops);
    if n == |init| {
      EntriesComeFromClaims(init);
      RunUnderOwnVips(init);
      var idx := DoAll(EMPTY, init);
      forall k | k in idx.byV4 && idx.byV4[k].session == ops[n].session ensures k == ops[n].vips.v4 {
        assert ClaimedIn(ops, idx.byV4[k]) && ops[n] in ops;
      }
      forall k | k in idx.byV6 && idx.byV6[k].session == ops[n].session ensures k == ops[n].vips.v6 {
        assert ClaimedIn(ops, idx.byV6[k]) && ops[n] in ops;
      }
    } else {
      ReleasedNeverReturns(init, n);
    }
  }

  lemma MirrorKept(idx: Index, op: Op, pair: EndpointId -> Vips)
    requires Mirrored(idx)
    requires forall k :: k in idx.byV4 ==> idx.byV4[k].vips == pair(idx.byV4[k].id)
    requires forall k :: k in idx.byV6 ==> idx.byV6[k].vips == pair(idx.byV6[k].id)
    requires op.Claim? ==> op.peer.vips == pair(op.peer.id)
    requires op.Release? ==> forall k :: k in idx.byV4 && idx.byV4[k].session == op.session ==> idx.byV4[k].vips == op.vips
    requires op.Release? ==> forall k :: k in idx.byV6 && idx.byV6[k].session == op.session ==> idx.byV6[k].vips == op.vips
    ensures Mirrored(Do(idx, op))
  {
  }

  /** With one fixed pair per peer the two maps always hold exactly the same sessions. */
  lemma {:induction false} FixedPairsMirror(ops: seq<Op>, pair: EndpointId -> Vips)
    requires FixedPairs(ops, pair) && OwnReleases(ops)
    ensures Mirrored(DoAll(EMPTY, ops))
  {
    if ops != [] {
      var init, last := ops[..|ops| - 1], ops[|ops| - 1];
      InitAndLast(ops);
      FixedPairsMirror(init, pair);
      EntriesComeFromClaims(init);
      var idx := DoAll(EMPTY, init);
      forall k | k in idx.byV4 ensures idx.byV4[k].vips == pair(idx.byV4[k].id) {
        assert ClaimedIn(ops, idx.byV4[k]);
      }
      forall k | k in idx.byV6 ensures idx.byV6[k].vips == pair(idx.byV6[k].id) {
        assert ClaimedIn(ops, idx.byV6[k]);
      }
      MirrorKept(idx, last, pair);
    }
  }
}
