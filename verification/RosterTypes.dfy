/** Roster entries and messages (src/tun_roster.rs) and what a spoke's roster makes of them. */
module RosterTypes {
  import opened Net

  datatype RosterEntry = RosterEntry(vips: Vips, id: EndpointId)

  datatype RosterMsg =
    | Snapshot(entries: seq<RosterEntry>)
    | Joined(entry: RosterEntry)
    | Left(entry: RosterEntry)

  const ROSTER_MAX_ENTRIES := 4096

  /** The entries an encoded snapshot keeps. */
  function Capped(entries: seq<RosterEntry>): seq<RosterEntry> {
    if |entries| <= ROSTER_MAX_ENTRIES then entries else entries[..ROSTER_MAX_ENTRIES]
  }

  type Roster = map<EndpointId, Vips>

  function InsertAll(own: EndpointId, roster: Roster, entries: seq<RosterEntry>): Roster {
    if entries == [] then roster
    else
      var e, before := entries[|entries| - 1], InsertAll(own, roster, entries[..|entries| - 1]);
      if e.id == own then before else before[e.id := e.vips]
  }

  /** The roster part of `spoke_apply_roster_msg`: a spoke never lists itself. */
  function ApplyMsg(own: EndpointId, roster: Roster, msg: RosterMsg): Roster {
    match msg
    case Snapshot(entries) => InsertAll(own, roster, entries)
    case Joined(e) => if e.id == own then roster else roster[e.id := e.vips]
    case Left(e) => roster - {e.id}
  }

  // ------------------------------------------------ what a message sequence says about one peer

  datatype News = Silence | Gone | At(vips: Vips)

  function Listed(entries: seq<RosterEntry>, id: EndpointId): News {
    if entries == [] then Silence
    else if entries[|entries| - 1].id == id then At(entries[|entries| - 1].vips)
    else Listed(entries[..|entries| - 1], id)
  }

  function Says(msg: RosterMsg, id: EndpointId): News {
    match msg
    case Snapshot(entries) => Listed(entries, id)
    case Joined(e) => if e.id == id then At(e.vips) else Silence
    case Left(e) => if e.id == id then Gone else Silence
  }

  function Then(first: News, second: News): News {
    if second.Silence? then first else second
  }

  /** The last thing the messages say about a peer. */
  function NewsOf(msgs: seq<RosterMsg>, id: EndpointId): News {
    if msgs == [] then Silence
    else Then(NewsOf(msgs[..|msgs| - 1], id), Says(msgs[|msgs| - 1], id))
  }

  function Lookup(roster: Roster, id: EndpointId): Option<Vips> {
    if id in roster then Some(roster[id]) else None
  }

  /** What the roster will say about a peer once the news is in. */
  function Told(news: News, roster: Roster, id: EndpointId): Option<Vips> {
    match news
    case Silence => Lookup(roster, id)
    case Gone => None
    case At(vips) => Some(vips)
  }

  lemma {:induction false} NewsSplit(a: seq<RosterMsg>, b: seq<RosterMsg>, id: EndpointId)
    ensures NewsOf(a + b, id) == Then(NewsOf(a, id), NewsOf(b, id))
  {
    if b == [] {
      assert a + b == a;
    } else {
      var init := b[..|b| - 1];
      assert (a + b)[..|a + b| - 1] == a + init;
      NewsSplit(a, init, id);
    }
  }

  lemma NewsOfOne(m: RosterMsg, id: EndpointId)
    ensures NewsOf([m], id) == Says(m, id)
  {
    assert [m][..0] == [];
  }

  lemma {:induction false} ListedIsInserted(own: EndpointId, roster: Roster, entries: seq<RosterEntry>, id: EndpointId)
    requires id != own
    ensures Lookup(InsertAll(own, roster, entries), id) == Told(Listed(entries, id), roster, id)
  {
    if entries != [] {
      ListedIsInserted(own, roster, entries[..|entries| - 1], id);
    }
  }

  /** Reading the next message leaves what the spoke will finally believe about any other peer unchanged. */
  lemma ReadingKeepsTold(own: EndpointId, roster: Roster, m: RosterMsg, rest: seq<RosterMsg>, id: EndpointId)
    requires id != own
    ensures Told(NewsOf([m] + rest, id), roster, id) == Told(NewsOf(rest, id), ApplyMsg(own, roster, m), id)
  {
    NewsSplit([m], rest, id);
    NewsOfOne(m, id);
    if m.Snapshot? {
      ListedIsInserted(own, roster, m.entries, id);
    }
  }

  /** A spoke that has itself neither listed nor inserted stays out of its own roster. */
  lemma {:induction false} NeverListsItself(own: EndpointId, roster: Roster, entries: seq<RosterEntry>)
    requires own !in roster
    ensures own !in InsertAll(own, roster, entries)
  {
    if entries != [] {
      NeverListsItself(own, roster, entries[..|entries| - 1]);
    }
  }
}
