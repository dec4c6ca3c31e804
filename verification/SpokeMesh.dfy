/** A spoke's mesh table: the hub link, the direct links and the roster (src/tun/spoke.rs). */
module SpokeMesh {
  import opened Net
  import opened HubIndex
  import opened PacketHeaders
  import opened RosterTypes

  /** The sending half of one connection's outbound queue. */
  type Link = nat

  datatype Mesh = Mesh(
    hubVip: Option<Ip4>, hubVip6: Option<Ip6>, hubOut: Option<Link>,
    direct: map<Ip4, Link>, direct6: map<Ip6, Link>, roster: Roster)

  /** `lookup_out`. */
  function LookupOut(mesh: Mesh, pkt: Packet): Option<Link> {
    if Ipv4Dst(pkt).Some? then
      var dst := Ipv4Dst(pkt).value;
      if mesh.hubVip == Some(dst) then mesh.hubOut
      else if dst in mesh.direct then Some(mesh.direct[dst])
      else if VipInMesh(dst) then mesh.hubOut
      else None
    else if Ipv6Dst(pkt).Some? then
      var dst := Ipv6Dst(pkt).value;
      if mesh.hubVip6 == Some(dst) then mesh.hubOut
      else if dst in mesh.direct6 then Some(mesh.direct6[dst])
      else if Vip6InMesh(dst) then mesh.hubOut
      else None
    else None
  }

  /** The link is filed under the packet's destination. */
  predicate IsDirect(mesh: Mesh, pkt: Packet, link: Link) {
    || (Ipv4Dst(pkt).Some? && Ipv4Dst(pkt).value in mesh.direct && mesh.direct[Ipv4Dst(pkt).value] == link)
    || (Ipv6Dst(pkt).Some? && Ipv6Dst(pkt).value in mesh.direct6 && mesh.direct6[Ipv6Dst(pkt).value] == link)
  }

  predicate HasDirect(mesh: Mesh, pkt: Packet) {
    || (Ipv4Dst(pkt).Some? && Ipv4Dst(pkt).value in mesh.direct)
    || (Ipv6Dst(pkt).Some? && Ipv6Dst(pkt).value in mesh.direct6)
  }

  /** The packet is for an address of the hub the spoke is connected to. */
  predicate ForHub(mesh: Mesh, pkt: Packet) {
    || (Ipv4Dst(pkt).Some? && mesh.hubVip == Ipv4Dst(pkt))
    || (Ipv6Dst(pkt).Some? && mesh.hubVip6 == Ipv6Dst(pkt))
  }

  lemma {:induction false} OwnIsSkipped(me: EndpointId, roster: Roster, entries: seq<RosterEntry>)
    ensures Lookup(InsertAll(me, roster, entries), me) == Lookup(roster, me)
  {
    if entries != [] {
      OwnIsSkipped(me, roster, entries[..|entries| - 1]);
    }
  }

  /** A message leaves in the roster what it says of every other peer, and nothing new of the spoke itself. */
  lemma StoredAsTold(me: EndpointId, roster: Roster, msg: RosterMsg)
    ensures forall id :: id != me ==>
              Lookup(ApplyMsg(me, roster, msg), id) == RosterTypes.Told(Says(msg, id), roster, id)
    ensures Lookup(ApplyMsg(me, roster, msg), me) == if msg.Left? && msg.entry.id == me then None else Lookup(roster, me)
  {
    if msg.Snapshot? {
      forall id | id != me {
        ListedIsInserted(me, roster, msg.entries, id);
      }
      OwnIsSkipped(me, roster, msg.entries);
    }
  }

  predicate Same4(a: Mesh, b: Mesh, k: Ip4) {
    (k in a.direct <==> k in b.direct) && (k in a.direct ==> a.direct[k] == b.direct[k])
  }

  predicate Same6(a: Mesh, b: Mesh, k: Ip6) {
    (k in a.direct6 <==> k in b.direct6) && (k in a.direct6 ==> a.direct6[k] == b.direct6[k])
  }

  predicate SameRoster(a: Mesh, b: Mesh, id: EndpointId) {
    Lookup(a.roster, id) == Lookup(b.roster, id)
  }

  /** The updates the spoke's tasks make; `order` is the snapshot's entries as the path history sorts them. */
  datatype Update =
    | HubUp(id: EndpointId, hub: Vips, out: Link)
    | HubDown
    | DirectUp(peer: EndpointId, vips: Vips, link: Link)
    | DirectDown(gone: Vips)
    | Told(msg: RosterMsg, order: seq<RosterEntry>)

  function Apply(me: EndpointId, own: Vips, mesh: Mesh, u: Update): Mesh {
    match u
    case HubUp(id, hub, out) =>
      mesh.(hubVip := Some(hub.v4), hubVip6 := Some(hub.v6), hubOut := Some(out), roster := mesh.roster[id := hub])
    case HubDown => mesh.(hubVip := None, hubVip6 := None, hubOut := None)
    case DirectUp(peer, vips, link) =>
      if vips.v4 == own.v4 || vips.v6 == own.v6 then mesh
      else mesh.(roster := mesh.roster[peer := vips],
                 direct := mesh.direct[vips.v4 := link], direct6 := mesh.direct6[vips.v6 := link])
    case DirectDown(gone) => mesh.(direct := mesh.direct - {gone.v4}, direct6 := mesh.direct6 - {gone.v6})
    case Told(msg, order) =>
      match msg
      case Snapshot(_) => mesh.(roster := InsertAll(me, mesh.roster, order))
      case Joined(_) => mesh.(roster := ApplyMsg(me, mesh.roster, msg))
      case Left(e) => mesh.(roster := ApplyMsg(me, mesh.roster, msg),
                            direct := mesh.direct - {e.vips.v4}, direct6 := mesh.direct6 - {e.vips.v6})
  }

  function ApplyAll(me: EndpointId, own: Vips, us: seq<Update>): Mesh {
    if us == [] then Mesh(None, None, None, map[], map[], map[])
    else Apply(me, own, ApplyAll(me, own, us[..|us| - 1]), us[|us| - 1])
  }

  /** The shared cell the table lives in: each update clones the table, changes the clone and stores it. */
  class SharedMesh {
    const me: EndpointId
    const own: Vips
    var mesh: Mesh

    constructor (me: EndpointId, own: Vips)
      ensures this.me == me && this.own == own && mesh == ApplyAll(me, own, [])
    {
      this.me, this.own := me, own;
      mesh := Mesh(None, None, None, map[], map[], map[]);
    }

    method SetHub(id: EndpointId, hub: Vips, out: Link)
      modifies this
      ensures mesh == Apply(me, own, old(mesh), HubUp(id, hub, out))
      ensures mesh.hubVip == Some(hub.v4) && mesh.hubVip6 == Some(hub.v6) && mesh.hubOut == Some(out)
      ensures id in mesh.roster && mesh.roster[id] == hub
      ensures forall k :: k != id ==> SameRoster(mesh, old(mesh), k)
      ensures mesh.direct == old(mesh.direct) && mesh.direct6 == old(mesh.direct6)
    {
      var next := mesh;
      next := next.(hubVip := Some(hub.v4));
      next := next.(hubVip6 := Some(hub.v6));
      next := next.(hubOut := Some(out));
      mesh := next.(roster := next.roster[id := hub]);
    }

    method ClearHub()
      modifies this
      ensures mesh == Apply(me, own, old(mesh), HubDown)
      ensures mesh.hubVip.None? && mesh.hubVip6.None? && mesh.hubOut.None?
      ensures mesh.direct == old(mesh.direct) && mesh.direct6 == old(mesh.direct6) && mesh.roster == old(mesh.roster)
      ensures forall pkt, link :: LookupOut(mesh, pkt) == Some(link) ==> IsDirect(mesh, pkt, link)
    {
      mesh := mesh.(hubVip := None, hubVip6 := None, hubOut := None);
    }

    /** `spoke_install_direct`, up to the reading task. */
    method InstallDirect(peer: EndpointId, vips: Vips, link: Link)
      modifies this
      ensures mesh == Apply(me, own, old(mesh), DirectUp(peer, vips, link))
      ensures vips.v4 == own.v4 || vips.v6 == own.v6 ==> mesh == old(mesh)
      ensures vips.v4 != own.v4 && vips.v6 != own.v6 ==>
                && vips.v4 in mesh.direct && mesh.direct[vips.v4] == link
                && vips.v6 in mesh.direct6 && mesh.direct6[vips.v6] == link
                && peer in mesh.roster && mesh.roster[peer] == vips
      ensures forall k :: k != vips.v4 ==> Same4(mesh, old(mesh), k)
      ensures forall k :: k != vips.v6 ==> Same6(mesh, old(mesh), k)
      ensures forall k :: k != peer ==> SameRoster(mesh, old(mesh), k)
      ensures mesh.hubVip == old(mesh.hubVip) && mesh.hubVip6 == old(mesh.hubVip6) && mesh.hubOut == old(mesh.hubOut)
    {
      if vips.v4 == own.v4 || vips.v6 == own.v6 {
        return;
      }
      var next := mesh.(roster := mesh.roster[peer := vips]);
      next := next.(direct := next.direct[vips.v4 := link]);
      mesh := next.(direct6 := next.direct6[vips.v6 := link]);
    }

    method DropDirect(gone: Vips)
      modifies this
      ensures mesh == Apply(me, own, old(mesh), DirectDown(gone))
      ensures gone.v4 !in mesh.direct && gone.v6 !in mesh.direct6
      ensures forall k :: k != gone.v4 ==> Same4(mesh, old(mesh), k)
      ensures forall k :: k != gone.v6 ==> Same6(mesh, old(mesh), k)
      ensures mesh.roster == old(mesh.roster) && mesh.hubOut == old(mesh.hubOut)
      ensures mesh.hubVip == old(mesh.hubVip) && mesh.hubVip6 == old(mesh.hubVip6)
    {
      mesh := mesh.(direct := mesh.direct - {gone.v4}, direct6 := mesh.direct6 - {gone.v6});
    }

    /** The table's part of `spoke_apply_roster_msg`; a snapshot is stored entry by entry. */
    method ApplyRosterMsg(msg: RosterMsg, order: seq<RosterEntry>)
      modifies this
      ensures mesh == Apply(me, own, old(mesh), Told(msg, order))
      ensures msg.Left? ==>
                && msg.entry.vips.v4 !in mesh.direct && msg.entry.vips.v6 !in mesh.direct6
                && (forall k :: k != msg.entry.vips.v4 ==> Same4(mesh, old(mesh), k))
                && (forall k :: k != msg.entry.vips.v6 ==> Same6(mesh, old(mesh), k))
      ensures !msg.Left? ==> mesh.direct == old(mesh.direct) && mesh.direct6 == old(mesh.direct6)
      ensures var stored := if msg.Snapshot? then Snapshot(order) else msg;
              forall id :: id != me ==>
                Lookup(mesh.roster, id) == RosterTypes.Told(Says(stored, id), old(mesh.roster), id)
      ensures Lookup(mesh.roster, me) == if msg.Left? && msg.entry.id == me then None else Lookup(old(mesh.roster), me)
      ensures mesh.hubVip == old(mesh.hubVip) && mesh.hubVip6 == old(mesh.hubVip6) && mesh.hubOut == old(mesh.hubOut)
    {
      StoredAsTold(me, mesh.roster, if msg.Snapshot? then Snapshot(order) else msg);
      match msg
      case Snapshot(_) =>
        for i := 0 to |order|
          invariant mesh == old(mesh).(roster := InsertAll(me, old(mesh).roster, order[..i]))
        {
          assert order[..i + 1][..i] == order[..i];
          if order[i].id == me {
            continue;
          }
          mesh := mesh.(roster := mesh.roster[order[i].id := order[i].vips]);
        }
        assert order[..|order|] == order;
      case Joined(e) =>
        if e.id == me {
          return;
        }
        mesh := mesh.(roster := mesh.roster[e.id := e.vips]);
      case Left(e) =>
        var next := mesh.(roster := mesh.roster - {e.id});
        mesh := next.(direct := next.direct - {e.vips.v4}, direct6 := next.direct6 - {e.vips.v6});
    }

    /** One packet from the spoke's own TUN device: the queue it goes to, if any. */
    method Route(pkt: Packet) returns (out: Option<Link>)
      ensures DestinedTo(pkt, own) ==> out == None
      ensures out.Some? ==> out == mesh.hubOut || IsDirect(mesh, pkt, out.value)
      ensures out.None? ==>
                || DestinedTo(pkt, own) || mesh.hubOut.None? || !DstInMesh(pkt)
      ensures !DestinedTo(pkt, own) ==> out == LookupOut(mesh, pkt)
      ensures !DestinedTo(pkt, own) && ForHub(mesh, pkt) ==> out == mesh.hubOut
      ensures forall link: Link :: !DestinedTo(pkt, own) && !ForHub(mesh, pkt) && IsDirect(mesh, pkt, link) ==>
                out == Some(link)
      ensures !DestinedTo(pkt, own) && !ForHub(mesh, pkt) && !HasDirect(mesh, pkt) ==>
                out == if DstInMesh(pkt) then mesh.hubOut else None
    {
      if DestinedTo(pkt, own) {
        return None;
      }
      out := LookupOut(mesh, pkt);
    }
  }

  // ---------------------------------------------------------------- what every run of updates keeps

  /** Direct links sit under the addresses their peer announced, and never under the spoke's own. */
  ghost predicate LinksUnderVips(mesh: Mesh, own: Vips, vipsOf: Link -> Vips) {
    && (forall k :: k in mesh.direct ==> vipsOf(mesh.direct[k]).v4 == k && k != own.v4)
    && (forall k :: k in mesh.direct6 ==> vipsOf(mesh.direct6[k]).v6 == k && k != own.v6)
  }

  /** The hub's fields are set and cleared together. */
  ghost predicate HubIsWhole(mesh: Mesh) {
    mesh.hubVip.Some? == mesh.hubVip6.Some? == mesh.hubOut.Some?
  }

  /** Every link was installed for the peer whose addresses it is known to have. */
  ghost predicate LinksKnown(us: seq<Update>, vipsOf: Link -> Vips) {
    && (forall u :: u in us && u.DirectUp? ==> vipsOf(u.link) == u.vips)
    && (forall u :: u in us && u.HubUp? ==> vipsOf(u.out) == u.hub)
  }

  ghost predicate HubLinkKnown(mesh: Mesh, vipsOf: Link -> Vips) {
    mesh.hubOut.Some? ==>
      mesh.hubVip == Some(vipsOf(mesh.hubOut.value).v4) && mesh.hubVip6 == Some(vipsOf(mesh.hubOut.value).v6)
  }

  /** One update keeps each link in its place. */
  lemma UpdateKeepsLinks(me: EndpointId, own: Vips, mesh: Mesh, u: Update, vipsOf: Link -> Vips)
    requires LinksUnderVips(mesh, own, vipsOf) && (u.DirectUp? ==> vipsOf(u.link) == u.vips)
    ensures LinksUnderVips(Apply(me, own, mesh, u), own, vipsOf)
  {
  }

  lemma {:induction false} RunKeepsLinks(me: EndpointId, own: Vips, us: seq<Update>, vipsOf: Link -> Vips)
    requires LinksKnown(us, vipsOf)
    ensures LinksUnderVips(ApplyAll(me, own, us), own, vipsOf)
    ensures HubIsWhole(ApplyAll(me, own, us)) && HubLinkKnown(ApplyAll(me, own, us), vipsOf)
  {
    if us != [] {
      var init, last := us[..|us| - 1], us[|us| - 1];
      assert last in us && forall u :: u in init ==> u in us;
      RunKeepsLinks(me, own, init, vipsOf);
      UpdateKeepsLinks(me, own, ApplyAll(me, own, init), last, vipsOf);
    }
  }

  /** A packet for the hub takes the hub's own link, and no direct link ever shadows it. */
  lemma HubIsNeverShadowed(me: EndpointId, own: Vips, us: seq<Update>, vipsOf: Link -> Vips, pkt: Packet)
    requires LinksKnown(us, vipsOf)
    requires var mesh := ApplyAll(me, own, us);
             mesh.hubOut.Some? && DestinedTo(pkt, vipsOf(mesh.hubOut.value))
    ensures LookupOut(ApplyAll(me, own, us), pkt) == ApplyAll(me, own, us).hubOut
  {
    RunKeepsLinks(me, own, us, vipsOf);
  }

  /** After any run, a packet leaves by the hub's link or by the link of exactly the peer it is for. */
  lemma OnlyToHubOrHolder(me: EndpointId, own: Vips, us: seq<Update>, vipsOf: Link -> Vips, pkt: Packet)
    requires LinksKnown(us, vipsOf)
    ensures var mesh := ApplyAll(me, own, us);
            LookupOut(mesh, pkt).Some? ==>
              || LookupOut(mesh, pkt) == mesh.hubOut
              || (DestinedTo(pkt, vipsOf(LookupOut(mesh, pkt).value)) && !DestinedTo(pkt, own))
  {
    RunKeepsLinks(me, own, us, vipsOf);
  }

  // ---------------------------------------------------------------- where packets go, over every run

  /** The update files a link under this IPv4 address. */
  predicate Files4(u: Update, own: Vips, k: Ip4) {
    u.DirectUp? && u.vips.v4 == k && u.vips.v4 != own.v4 && u.vips.v6 != own.v6
  }

  predicate Files6(u: Update, own: Vips, k: Ip6) {
    u.DirectUp? && u.vips.v6 == k && u.vips.v4 != own.v4 && u.vips.v6 != own.v6
  }

  /** The update takes the link under this IPv4 address away: its end, or its peer's Left. */
  predicate Drops4(u: Update, k: Ip4) {
    (u.DirectDown? && u.gone.v4 == k) || (u.Told? && u.msg.Left? && u.msg.entry.vips.v4 == k)
  }

  predicate Drops6(u: Update, k: Ip6) {
    (u.DirectDown? && u.gone.v6 == k) || (u.Told? && u.msg.Left? && u.msg.entry.vips.v6 == k)
  }

  ghost predicate FiledAt4(us: seq<Update>, own: Vips, k: Ip4, link: Link, i: nat) {
    && i < |us| && Files4(us[i], own, k) && us[i].link == link
    && forall j :: i < j < |us| ==> !Files4(us[j], own, k) && !Drops4(us[j], k)
  }

  ghost predicate FiledAt6(us: seq<Update>, own: Vips, k: Ip6, link: Link, i: nat) {
    && i < |us| && Files6(us[i], own, k) && us[i].link == link
    && forall j :: i < j < |us| ==> !Files6(us[j], own, k) && !Drops6(us[j], k)
  }

  /** Some update filed the link under the address, and none since has replaced it or taken it away. */
  ghost predicate Filed4(us: seq<Update>, own: Vips, k: Ip4, link: Link) {
    exists i: nat :: FiledAt4(us, own, k, link, i)
  }

  ghost predicate Filed6(us: seq<Update>, own: Vips, k: Ip6, link: Link) {
    exists i: nat :: FiledAt6(us, own, k, link, i)
  }

  lemma FiledStep4(us: seq<Update>, own: Vips, k: Ip4, link: Link)
    requires us != []
    ensures var u := us[|us| - 1];
            Filed4(us, own, k, link) <==>
              if Files4(u, own, k) then u.link == link else !Drops4(u, k) && Filed4(us[..|us| - 1], own, k, link)
  {
    var n, u := |us| - 1, us[|us| - 1];
    if Files4(u, own, k) && u.link == link {
      assert FiledAt4(us, own, k, link, n);
    }
    if i: nat :| FiledAt4(us[..n], own, k, link, i) {
      assert FiledAt4(us, own, k, link, i) || Files4(u, own, k) || Drops4(u, k);
    }
    if i: nat :| FiledAt4(us, own, k, link, i) && i < n {
      assert FiledAt4(us[..n], own, k, link, i);
    }
  }

  lemma FiledStep6(us: seq<Update>, own: Vips, k: Ip6, link: Link)
    requires us != []
    ensures var u := us[|us| - 1];
            Filed6(us, own, k, link) <==>
              if Files6(u, own, k) then u.link == link else !Drops6(u, k) && Filed6(us[..|us| - 1], own, k, link)
  {
    var n, u := |us| - 1, us[|us| - 1];
    if Files6(u, own, k) && u.link == link {
      assert FiledAt6(us, own, k, link, n);
    }
    if i: nat :| FiledAt6(us[..n], own, k, link, i) {
      assert FiledAt6(us, own, k, link, i) || Files6(u, own, k) || Drops6(u, k);
    }
    if i: nat :| FiledAt6(us, own, k, link, i) && i < n {
      assert FiledAt6(us[..n], own, k, link, i);
    }
  }

  /** After every run, exactly the links that were filed and neither replaced nor dropped since stand under an address. */
  lemma {:induction false} LinksAreFiled(me: EndpointId, own: Vips, us: seq<Update>, k4: Ip4, k6: Ip6, link: Link)
    ensures var mesh := ApplyAll(me, own, us);
            && (k4 in mesh.direct && mesh.direct[k4] == link <==> Filed4(us, own, k4, link))
            && (k6 in mesh.direct6 && mesh.direct6[k6] == link <==> Filed6(us, own, k6, link))
  {
    if us != [] {
      LinksAreFiled(me, own, us[..|us| - 1], k4, k6, link);
      FiledStep4(us, own, k4, link);
      FiledStep6(us, own, k6, link);
    }
  }

  /** The packet's destination has this link filed. */
  ghost predicate FiledFor(us: seq<Update>, own: Vips, pkt: Packet, link: Link) {
    || (Ipv4Dst(pkt).Some? && Filed4(us, own, Ipv4Dst(pkt).value, link))
    || (Ipv6Dst(pkt).Some? && Filed6(us, own, Ipv6Dst(pkt).value, link))
  }

  /**
   * Over every run, with a hub or without: a packet that is not for the hub leaves by the direct link filed for
   * its destination; without one it leaves by the hub's link when it is for an address of the mesh; and any
   * other has no way out.
   */
  lemma DirectLinkIsUsed(me: EndpointId, own: Vips, us: seq<Update>, pkt: Packet)
    requires !ForHub(ApplyAll(me, own, us), pkt)
    ensures forall link: Link :: FiledFor(us, own, pkt, link) ==> LookupOut(ApplyAll(me, own, us), pkt) == Some(link)
    ensures (forall link: Link :: !FiledFor(us, own, pkt, link)) ==>
              LookupOut(ApplyAll(me, own, us), pkt) == if DstInMesh(pkt) then ApplyAll(me, own, us).hubOut else None
  {
    forall link: Link
      ensures FiledFor(us, own, pkt, link) <==> IsDirect(ApplyAll(me, own, us), pkt, link)
    {
      var k4 := if Ipv4Dst(pkt).Some? then Ipv4Dst(pkt).value else 0;
      var k6 := if Ipv6Dst(pkt).Some? then Ipv6Dst(pkt).value else 0;
      LinksAreFiled(me, own, us, k4, k6, link);
    }
    var mesh := ApplyAll(me, own, us);
    if HasDirect(mesh, pkt) {
      var link := if Ipv4Dst(pkt).Some? then mesh.direct[Ipv4Dst(pkt).value] else mesh.direct6[Ipv6Dst(pkt).value];
      assert IsDirect(mesh, pkt, link);
    }
  }

  /** A link that has come up and not been touched since takes the packets for its peer, of either family. */
  lemma LinkCarriesItsPeer(me: EndpointId, own: Vips, us: seq<Update>, i: nat, pkt: Packet)
    requires i < |us| && us[i].DirectUp? && us[i].vips.v4 != own.v4 && us[i].vips.v6 != own.v6
    requires forall j :: i < j < |us| ==> Untouched(us[j], us[i].vips)
    requires DestinedTo(pkt, us[i].vips) && !ForHub(ApplyAll(me, own, us), pkt)
    ensures LookupOut(ApplyAll(me, own, us), pkt) == Some(us[i].link)
  {
    var vips, link := us[i].vips, us[i].link;
    assert FiledAt4(us, own, vips.v4, link, i) && FiledAt6(us, own, vips.v6, link, i);
    DirectLinkIsUsed(me, own, us, pkt);
  }

  /** No link of these addresses comes up or ends, and no peer with one of them leaves. */
  predicate Untouched(u: Update, vips: Vips) {
    && (u.DirectUp? ==> u.vips.v4 != vips.v4 && u.vips.v6 != vips.v6)
    && (u.DirectDown? ==> u.gone.v4 != vips.v4 && u.gone.v6 != vips.v6)
    && (u.Told? && u.msg.Left? ==> u.msg.entry.vips.v4 != vips.v4 && u.msg.entry.vips.v6 != vips.v6)
  }

  /** The peer's Left takes its links along: what is for it goes by the hub again, if there is one. */
  lemma LeftFallsBackToHub(me: EndpointId, own: Vips, us: seq<Update>, e: RosterEntry, pkt: Packet)
    requires DestinedTo(pkt, e.vips) && VipInMesh(e.vips.v4) && Vip6InMesh(e.vips.v6)
    ensures var after := us + [Told(Left(e), [])];
            LookupOut(ApplyAll(me, own, after), pkt) == ApplyAll(me, own, us).hubOut
  {
    var after := us + [Told(Left(e), [])];
    assert after[..|after| - 1] == us;
  }

  /** After every run the hub's link is the one of the last connection, unless that has ended. */
  lemma {:induction false} HubLinkIsTheLast(me: EndpointId, own: Vips, us: seq<Update>)
    ensures var mesh := ApplyAll(me, own, us);
            forall hub: Vips, out: Link ::
              mesh.hubVip == Some(hub.v4) && mesh.hubVip6 == Some(hub.v6) && mesh.hubOut == Some(out)
              <==> Connected(us, hub, out)
  {
    if us != [] {
      var n := |us| - 1;
      HubLinkIsTheLast(me, own, us[..n]);
      forall hub: Vips, out: Link {
        ConnectedStep(us, hub, out);
      }
    }
  }

  ghost predicate ConnectedAt(us: seq<Update>, hub: Vips, out: Link, i: nat) {
    && i < |us| && us[i].HubUp? && us[i].hub == hub && us[i].out == out
    && forall j :: i < j < |us| ==> !us[j].HubUp? && !us[j].HubDown?
  }

  ghost predicate Connected(us: seq<Update>, hub: Vips, out: Link) {
    exists i: nat :: ConnectedAt(us, hub, out, i)
  }

  lemma ConnectedStep(us: seq<Update>, hub: Vips, out: Link)
    requires us != []
    ensures var u := us[|us| - 1];
            Connected(us, hub, out) <==>
              if u.HubUp? then u.hub == hub && u.out == out else !u.HubDown? && Connected(us[..|us| - 1], hub, out)
  {
    var n, u := |us| - 1, us[|us| - 1];
    if u.HubUp? && u.hub == hub && u.out == out {
      assert ConnectedAt(us, hub, out, n);
    }
    if i: nat :| ConnectedAt(us[..n], hub, out, i) {
      assert ConnectedAt(us, hub, out, i) || u.HubUp? || u.HubDown?;
    }
    if i: nat :| ConnectedAt(us, hub, out, i) && i < n {
      assert ConnectedAt(us[..n], hub, out, i);
    }
  }

  // ---------------------------------------------------------------- the snapshot's order

  ghost predicate DistinctIds(entries: seq<RosterEntry>) {
    forall i, j :: 0 <= i < j < |entries| ==> entries[i].id != entries[j].id
  }

  lemma {:induction false} ListedExactly(entries: seq<RosterEntry>, i: nat)
    requires DistinctIds(entries) && i < |entries|
    ensures Listed(entries, entries[i].id) == At(entries[i].vips)
  {
    if i < |entries| - 1 {
      ListedExactly(entries[..|entries| - 1], i);
    }
  }

  lemma {:induction false} UnlistedIsSilent(entries: seq<RosterEntry>, id: EndpointId)
    requires forall i :: 0 <= i < |entries| ==> entries[i].id != id
    ensures Listed(entries, id) == Silence
  {
    if entries != [] {
      UnlistedIsSilent(entries[..|entries| - 1], id);
    }
  }

  lemma SameListing(a: seq<RosterEntry>, b: seq<RosterEntry>, id: EndpointId)
    requires multiset(a) == multiset(b) && DistinctIds(a) && DistinctIds(b)
    ensures Listed(a, id) == Listed(b, id)
  {
    if i :| 0 <= i < |a| && a[i].id == id {
      assert a[i] in multiset(b);
      var j :| 0 <= j < |b| && b[j] == a[i];
      ListedExactly(a, i);
      ListedExactly(b, j);
    } else {
      UnlistedIsSilent(a, id);
      forall j | 0 <= j < |b| ensures b[j].id != id {
        assert b[j] in multiset(a);
        var i :| 0 <= i < |a| && a[i] == b[j];
      }
      UnlistedIsSilent(b, id);
    }
  }

  /** However the snapshot's entries are sorted before they are stored, the roster comes out the same. */
  lemma OrderDoesNotMatter(me: EndpointId, roster: Roster, entries: seq<RosterEntry>, order: seq<RosterEntry>)
    requires multiset(entries) == multiset(order) && DistinctIds(entries)
    ensures InsertAll(me, roster, order) == ApplyMsg(me, roster, Snapshot(entries))
  {
    DistinctIdsOfOrder(entries, order);
    var a, b := InsertAll(me, roster, entries), InsertAll(me, roster, order);
    forall id ensures Lookup(a, id) == Lookup(b, id) {
      SameListing(entries, order, id);
      if id == me {
        OwnStays(me, roster, entries);
        OwnStays(me, roster, order);
      } else {
        ListedIsInserted(me, roster, entries, id);
        ListedIsInserted(me, roster, order, id);
      }
    }
    forall id ensures id in a <==> id in b {
      assert Lookup(a, id) == Lookup(b, id);
    }
    forall id | id in a ensures a[id] == b[id] {
      assert Lookup(a, id) == Lookup(b, id);
    }
  }

  lemma {:induction false} OwnStays(me: EndpointId, roster: Roster, entries: seq<RosterEntry>)
    ensures Lookup(InsertAll(me, roster, entries), me) == Lookup(roster, me)
  {
    if entries != [] {
      OwnStays(me, roster, entries[..|entries| - 1]);
    }
  }

  lemma DistinctIdsOfOrder(entries: seq<RosterEntry>, order: seq<RosterEntry>)
    requires multiset(entries) == multiset(order) && DistinctIds(entries)
    ensures DistinctIds(order)
  {
    forall i, j | 0 <= i < j < |order| ensures order[i].id != order[j].id {
      if order[i].id == order[j].id {
        SameIdSameEntry(entries, order, i, j);
        CountedTwice(order, i, j);
        CountedOnce(entries, order[i]);
      }
    }
  }

  lemma CountedTwice(s: seq<RosterEntry>, i: nat, j: nat)
    requires i < j < |s| && s[i] == s[j]
    ensures multiset(s)[s[i]] >= 2
  {
    assert s[i] in s[..j] && s[j] in s[j..];
    assert s == s[..j] + s[j..];
  }

  lemma {:induction false} CountedOnce(s: seq<RosterEntry>, e: RosterEntry)
    requires DistinctIds(s)
    ensures multiset(s)[e] <= 1
  {
    if s != [] {
      var init, last := s[..|s| - 1], s[|s| - 1];
      CountedOnce(init, e);
      assert s == init + [last];
      assert last !in init;
    }
  }

  lemma SameIdSameEntry(entries: seq<RosterEntry>, order: seq<RosterEntry>, i: nat, j: nat)
    requires multiset(entries) == multiset(order) && DistinctIds(entries)
    requires i < |order| && j < |order| && order[i].id == order[j].id
    ensures order[i] == order[j]
  {
    assert order[i] in multiset(entries) && order[j] in multiset(entries);
    var a :| 0 <= a < |entries| && entries[a] == order[i];
    var b :| 0 <= b < |entries| && entries[b] == order[j];
  }
}
