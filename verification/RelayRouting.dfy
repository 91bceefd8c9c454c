/** The relay between phones and the Bridge: a room forwards what each device
    connection sends to the one current Mac link, and the Mac's client opens a
    local socket per connection, buffering until it is open. */
module RelayRouting {
  import opened Keys

  /** What the room sends to the Mac, and the Mac to the room. */
  datatype Down = Open(conn: string) | Data(conn: string, payload: string) | Shut(conn: string)
  datatype Up = Reply(conn: string, payload: string) | Hangup(conn: string)

  datatype Phase = Connecting | Ready | Closing

  /** A local socket and the link it was opened for. */
  datatype Local = Local(conn: string, link: nat, phase: Phase, sent: seq<string>, pending: seq<string>)

  /** `links` holds all frames sent on each Mac link and `bases` how much each
      connection had sent when the link began; `devices` maps an attached
      connection to whether the room still holds it open; `heard` counts the
      frames read from each link, and `got` is what devices were sent from it. */
  datatype Room = Room(
    mac: Option<nat>, links: seq<seq<Down>>, bases: seq<map<string, nat>>, devices: map<string, bool>,
    sentBy: map<string, seq<string>>, heard: seq<nat>, got: seq<map<string, seq<string>>>)

  /** `read` is what was read from the current link, `ups` all that was sent up. */
  datatype Client = Client(
    relay: Option<nat>, read: seq<Down>, locals: map<string, nat>, sockets: seq<Local>, ups: seq<seq<Up>>)

  datatype System = System(room: Room, client: Client)

  const EMPTY := System(Room(None, [], [], map[], map[], [], []), Client(None, [], map[], [], []))

  function Payloads(log: seq<Down>, conn: string): seq<string> {
    if log == [] then []
    else
      var init, last := Payloads(log[..|log| - 1], conn), log[|log| - 1];
      if last.Data? && last.conn == conn then init + [last.payload] else init
  }

  function Replies(log: seq<Up>, conn: string): seq<string> {
    if log == [] then []
    else
      var init, last := Replies(log[..|log| - 1], conn), log[|log| - 1];
      if last.Reply? && last.conn == conn then init + [last.payload] else init
  }

  function Lookup(table: map<string, seq<string>>, conn: string): seq<string> {
    if conn in table then table[conn] else []
  }

  function Base(bases: seq<map<string, nat>>, link: nat, conn: string): nat
    requires link < |bases|
  {
    if conn in bases[link] then bases[link][conn] else 0
  }

  // ------------------------------------------------------------------- the room

  function SendToMac(r: Room, frame: Down): Room {
    if r.mac.None? || r.mac.value >= |r.links| then r
    else r.(links := r.links[r.mac.value := r.links[r.mac.value] + [frame]])
  }

  /** Without a Mac the request is refused. */
  function DeviceConnected(r: Room, conn: string): Room {
    if r.mac.None? then r
    else SendToMac(r.(devices := r.devices[conn := true], sentBy := r.sentBy[conn := []]), Open(conn))
  }

  function DeviceSent(r: Room, conn: string, payload: string): Room {
    SendToMac(r.(sentBy := r.sentBy[conn := Lookup(r.sentBy, conn) + [payload]]), Data(conn, payload))
  }

  function DeviceClosed(r: Room, conn: string): Room {
    SendToMac(r.(devices := r.devices - {conn}), Shut(conn))
  }

  /** A new Mac link replaces the old one, which gets no more sends. */
  function MacConnected(r: Room): Room {
    r.(mac := Some(|r.links|), links := r.links + [[]], bases := r.bases + [map c | c in r.sentBy :: |r.sentBy[c]|],
    heard := r.heard + [0], got := r.got + [map[]])
  }

  /** Losing any Mac link closes every device, a replaced link included. */
  function MacClosed(r: Room, link: nat): Room {
    r.(mac := if r.mac == Some(link) then None else r.mac, devices := map c | c in r.devices :: false)
  }

  function Heard(r: Room, link: nat, frame: Up): Room
    requires link < |r.heard| && link < |r.got|
  {
    var counted := r.(heard := r.heard[link := r.heard[link] + 1]);
    if frame.conn !in r.devices || !r.devices[frame.conn] then counted
    else
      match frame
      case Hangup(conn) => counted.(devices := r.devices[conn := false])
      case Reply(conn, payload) =>
        counted.(got := r.got[link := r.got[link][conn := Lookup(r.got[link], conn) + [payload]]])
  }

  // ------------------------------------------------------------------ the client

  function OpenedLocal(c: Client, conn: string): Client
    requires c.relay.Some?
  {
    if conn in c.locals then c
    else c.(locals := c.locals[conn := |c.sockets|],
            sockets := c.sockets + [Local(conn, c.relay.value, Connecting, [], [])])
  }

  function SetPhase(c: Client, id: nat, phase: Phase): Client
    requires id < |c.sockets|
  {
    c.(sockets := c.sockets[id := c.sockets[id].(phase := phase)])
  }

  function ClosedLocal(c: Client, conn: string): Client {
    if conn !in c.locals || c.locals[conn] >= |c.sockets| then c
    else SetPhase(c.(locals := c.locals - {conn}), c.locals[conn], Closing)
  }

  function Handed(local: Local, payload: string): Local {
    if local.phase.Ready? then local.(sent := local.sent + [payload]) else local.(pending := local.pending + [payload])
  }

  function DataCame(c: Client, conn: string, payload: string): Client
    requires c.relay.Some?
  {
    var target := OpenedLocal(c, conn);
    if target.locals[conn] >= |target.sockets| then target
    else
      var id := target.locals[conn];
      target.(sockets := target.sockets[id := Handed(target.sockets[id], payload)])
  }

  function FrameCame(c: Client, frame: Down): Client
    requires c.relay.Some?
  {
    var handled :=
      match frame
      case Open(conn) => OpenedLocal(c, conn)
      case Shut(conn) => ClosedLocal(c, conn)
      case Data(conn, payload) => DataCame(c, conn, payload);
    handled.(read := c.read + [frame])
  }

  function LocalOpened(c: Client, id: nat): Client
    requires id < |c.sockets|
  {
    var local := c.sockets[id];
    if !local.phase.Connecting? then c
    else c.(sockets := c.sockets[id := local.(phase := Ready, sent := local.sent + local.pending, pending := [])])
  }

  function SentUp(c: Client, frame: Up, relayOpen: bool): Client {
    if !relayOpen || c.relay.None? || c.relay.value >= |c.ups| then c
    else c.(ups := c.ups[c.relay.value := c.ups[c.relay.value] + [frame]])
  }

  function LocalSpoke(c: Client, id: nat, payload: string, relayOpen: bool): Client
    requires id < |c.sockets|
  {
    SentUp(c, Reply(c.sockets[id].conn, payload), relayOpen)
  }

  /** The close event of a socket that was already dropped does nothing more. */
  function LocalClosed(c: Client, id: nat, relayOpen: bool): Client
    requires id < |c.sockets|
  {
    var closing, conn := SetPhase(c, id, Closing), c.sockets[id].conn;
    if conn !in c.locals || c.locals[conn] != id then closing
    else SentUp(closing.(locals := c.locals - {conn}), Hangup(conn), relayOpen)
  }

  function RelayConnected(c: Client, link: nat): Client {
    c.(relay := Some(link), read := [], ups := c.ups + [[]])
  }

  function RelayClosed(c: Client): Client {
    c.(relay := None, read := [], locals := map[],
    sockets := seq(|c.sockets|, i requires 0 <= i < |c.sockets| =>
      if c.sockets[i].conn in c.locals && c.locals[c.sockets[i].conn] == i then c.sockets[i].(phase := Closing)
      else c.sockets[i]))
  }

  // -------------------------------------------------------------------- the runs

  datatype Event =
    | DeviceConnects(conn: string)
    | DeviceSends(conn: string, payload: string)
    | DeviceErrors(conn: string)
    | DeviceCloses(conn: string)
    | MacConnects
    | MacCloses(link: nat)
    | RoomHears(link: nat)
    | ClientReads
    | LocalOpens(id: nat)
    | LocalCloses(id: nat, relayOpen: bool)
    | LocalStartsClosing(id: nat)
    | LocalSpeaks(id: nat, payload: string, relayOpen: bool)
    | RelayCloses

  /** Connection ids are fresh; a frame is there before it is read; and the Mac
      dials a new link only after its relay socket closed. */
  predicate Possible(s: System, e: Event) {
    match e
    case DeviceConnects(conn) => conn !in s.room.sentBy
    case DeviceSends(conn, _) => conn in s.room.devices
    case DeviceErrors(conn) => conn in s.room.devices
    case DeviceCloses(conn) => conn in s.room.devices
    case MacConnects => s.client.relay.None?
    case MacCloses(link) => true
    case RoomHears(link) =>
      link < |s.client.ups| && link < |s.room.heard| && link < |s.room.got| && s.room.heard[link] < |s.client.ups[link]|
    case ClientReads =>
      && s.client.relay.Some? && s.client.relay.value < |s.room.links|
      && |s.client.read| < |s.room.links[s.client.relay.value]|
    case LocalOpens(id) => id < |s.client.sockets|
    case LocalCloses(id, _) => id < |s.client.sockets|
    case LocalStartsClosing(id) => id < |s.client.sockets|
    case LocalSpeaks(id, _, _) => id < |s.client.sockets|
    case RelayCloses => true
  }

  function Step(s: System, e: Event): System
    requires Possible(s, e)
  {
    match e
    case DeviceConnects(conn) => s.(room := DeviceConnected(s.room, conn))
    case DeviceSends(conn, payload) => s.(room := DeviceSent(s.room, conn, payload))
    case DeviceErrors(conn) => s.(room := SendToMac(s.room, Shut(conn)))
    case DeviceCloses(conn) => s.(room := DeviceClosed(s.room, conn))
    case MacConnects => System(MacConnected(s.room), RelayConnected(s.client, |s.room.links|))
    case MacCloses(link) => s.(room := MacClosed(s.room, link))
    case RoomHears(link) => s.(room := Heard(s.room, link, s.client.ups[link][s.room.heard[link]]))
    case ClientReads => s.(client := FrameCame(s.client, s.room.links[s.client.relay.value][|s.client.read|]))
    case LocalOpens(id) => s.(client := LocalOpened(s.client, id))
    case LocalCloses(id, relayOpen) => s.(client := LocalClosed(s.client, id, relayOpen))
    case LocalStartsClosing(id) => s.(client := SetPhase(s.client, id, Closing))
    case LocalSpeaks(id, payload, relayOpen) => s.(client := LocalSpoke(s.client, id, payload, relayOpen))
    case RelayCloses => s.(client := RelayClosed(s.client))
  }

  ghost predicate PossibleRun(s: System, events: seq<Event>)
    decreases |events|
  {
    events == [] || (Possible(s, events[0]) && PossibleRun(Step(s, events[0]), events[1..]))
  }

  function Run(s: System, events: seq<Event>): System
    requires PossibleRun(s, events)
    decreases |events|
  {
    if events == [] then s else Run(Step(s, events[0]), events[1..])
  }

  // ------------------------------------------------------------------ invariants

  /** What a link carried for a connection is one stretch of what the connection
      sent, and reaches its end while the link is current. */
  predicate LinkCarries(current: bool, log: seq<Down>, base: nat, sent: seq<string>, conn: string) {
    var carried := Payloads(log, conn);
    && base + |carried| <= |sent| && carried == sent[base..base + |carried|]
    && (current ==> base + |carried| == |sent|)
  }

  ghost predicate LinksOk(mac: Option<nat>, links: seq<seq<Down>>, bases: seq<map<string, nat>>,
                          sentBy: map<string, seq<string>>)
  {
    && |links| == |bases| && (mac.Some? ==> mac.value == |links| - 1)
    && (forall l, c ::
          0 <= l < |links| ==> LinkCarries(mac == Some(l), links[l], Base(bases, l, c), Lookup(sentBy, c), c))
    && (forall l, m, c :: 0 <= l < m < |links| ==> Base(bases, l, c) + |Payloads(links[l], c)| <= Base(bases, m, c))
  }

  function Block(local: Local): seq<string> {
    local.sent + local.pending
  }

  /** The blocks of all sockets of a link and connection, in order of opening. */
  function Blocks(sockets: seq<Local>, link: nat, conn: string): seq<string> {
    if sockets == [] then []
    else
      var init, last := Blocks(sockets[..|sockets| - 1], link, conn), sockets[|sockets| - 1];
      if last.link == link && last.conn == conn then init + Block(last) else init
  }

  /** A socket in the table is the last one opened for its connection. */
  predicate LiveOk(relay: Option<nat>, sockets: seq<Local>, conn: string, id: nat) {
    && id < |sockets| && sockets[id].conn == conn && relay == Some(sockets[id].link)
    && forall j :: id < j < |sockets| ==> sockets[j].conn != conn || sockets[j].link != sockets[id].link
  }

  ghost predicate SocketsOk(count: nat, sockets: seq<Local>) {
    && (forall i ::
          0 <= i < |sockets| ==> sockets[i].link < count && (sockets[i].phase.Ready? ==> sockets[i].pending == []))
    && (forall i, j :: 0 <= i < j < |sockets| ==> sockets[i].link <= sockets[j].link)
  }

  /** Everything read went to exactly one block, and nothing else did. */
  ghost predicate BlocksOk(relay: Option<nat>, read: seq<Down>, links: seq<seq<Down>>, sockets: seq<Local>) {
    && (relay.Some? ==> relay.value == |links| - 1 && read <= links[relay.value]
                        && forall c :: Blocks(sockets, relay.value, c) == Payloads(read, c))
    && (forall l, c :: 0 <= l < |links| ==> Blocks(sockets, l, c) <= Payloads(links[l], c))
  }

  ghost predicate ClientOk(c: Client, links: seq<seq<Down>>) {
    && SocketsOk(|links|, c.sockets) && BlocksOk(c.relay, c.read, links, c.sockets)
    && (forall conn :: conn in c.locals ==> LiveOk(c.relay, c.sockets, conn, c.locals[conn]))
    && |c.ups| == |links|
  }

  ghost predicate Valid(s: System) {
    LinksOk(s.room.mac, s.room.links, s.room.bases, s.room.sentBy) && ClientOk(s.client, s.room.links)
  }

  // --------------------------------------------------------- about logs and blocks

  lemma PayloadsOfNext(log: seq<Down>, frame: Down, conn: string)
    ensures Payloads(log + [frame], conn) ==
            if frame.Data? && frame.conn == conn then Payloads(log, conn) + [frame.payload] else Payloads(log, conn)
  {
    assert (log + [frame])[..|log|] == log;
  }

  lemma {:induction false} PayloadsOfPrefix(read: seq<Down>, log: seq<Down>, conn: string)
    requires read <= log
    ensures Payloads(read, conn) <= Payloads(log, conn)
    decreases |log|
  {
    if read != log {
      PayloadsOfPrefix(read, log[..|log| - 1], conn);
    } else {
      assert read == log;
    }
  }

  lemma BlocksOfNext(sockets: seq<Local>, local: Local, link: nat, conn: string)
    ensures Blocks(sockets + [local], link, conn) ==
            if local.link == link && local.conn == conn then Blocks(sockets, link, conn) + Block(local)
            else Blocks(sockets, link, conn)
  {
    assert (sockets + [local])[..|sockets|] == sockets;
  }

  predicate SameBlock(x: Local, y: Local) {
    x.link == y.link && x.conn == y.conn && Block(x) == Block(y)
  }

  lemma {:induction false} SameBlocks(x: seq<Local>, y: seq<Local>, link: nat, conn: string)
    requires |x| == |y| && forall i :: 0 <= i < |x| ==> SameBlock(x[i], y[i])
    ensures Blocks(x, link, conn) == Blocks(y, link, conn)
  {
    if x != [] {
      var n := |x| - 1;
      assert SameBlock(x[n], y[n]);
      SameBlocks(x[..n], y[..n], link, conn);
    }
  }

  /** A payload handed to the last socket of a connection ends its blocks. */
  lemma {:induction false} BlocksGrow(sockets: seq<Local>, id: nat, payload: string, link: nat, conn: string)
    requires id < |sockets|
    requires forall j ::
               id < j < |sockets| ==> sockets[j].conn != sockets[id].conn || sockets[j].link != sockets[id].link
    requires sockets[id].phase.Ready? ==> sockets[id].pending == []
    ensures var grown := sockets[id := Handed(sockets[id], payload)];
            Blocks(grown, link, conn) ==
            if sockets[id].link == link && sockets[id].conn == conn then Blocks(sockets, link, conn) + [payload]
            else Blocks(sockets, link, conn)
    decreases |sockets|
  {
    var n, grown := |sockets| - 1, sockets[id := Handed(sockets[id], payload)];
    assert Block(Handed(sockets[id], payload)) == Block(sockets[id]) + [payload];
    if id < n {
      assert grown[..n] == sockets[..n][id := Handed(sockets[id], payload)];
      BlocksGrow(sockets[..n], id, payload, link, conn);
    } else {
      assert grown[..n] == sockets[..n];
    }
  }

  lemma {:induction false} NoBlocksYet(sockets: seq<Local>, link: nat, conn: string)
    requires forall i :: 0 <= i < |sockets| ==> sockets[i].link != link
    ensures Blocks(sockets, link, conn) == []
  {
    if sockets != [] {
      NoBlocksYet(sockets[..|sockets| - 1], link, conn);
    }
  }

  // ------------------------------------------------------- preservation, the room

  lemma LongerLinkCarries(log: seq<Down>, base: nat, sent: seq<string>, conn: string, payload: string)
    requires LinkCarries(true, log, base, sent, conn)
    ensures LinkCarries(true, log + [Data(conn, payload)], base, sent + [payload], conn)
  {
    PayloadsOfNext(log, Data(conn, payload), conn);
  }

  lemma IdleLinkCarries(current: bool, log: seq<Down>, base: nat, sent: seq<string>, conn: string, payload: string)
    requires LinkCarries(current, log, base, sent, conn)
    ensures LinkCarries(false, log, base, sent + [payload], conn)
  {
  }

  lemma OtherFrameCarries(current: bool, log: seq<Down>, base: nat, sent: seq<string>, conn: string, frame: Down)
    requires LinkCarries(current, log, base, sent, conn) && !(frame.Data? && frame.conn == conn)
    ensures LinkCarries(current, log + [frame], base, sent, conn) &&
            Payloads(log + [frame], conn) == Payloads(log, conn)
  {
    PayloadsOfNext(log, frame, conn);
  }

  lemma DataLinkCarries(r: Room, conn: string, payload: string, l: nat, c: string)
    requires LinksOk(r.mac, r.links, r.bases, r.sentBy) && l < |r.links|
    ensures var d := DeviceSent(r, conn, payload);
            l < |d.links| && l < |d.bases| &&
            LinkCarries(d.mac == Some(l), d.links[l], Base(d.bases, l, c), Lookup(d.sentBy, c), c)
  {
    var current, log, base, sent := r.mac == Some(l), r.links[l], Base(r.bases, l, c), Lookup(r.sentBy, c);
    assert LinkCarries(current, log, base, sent, c);
    if c != conn {
      if current {
        OtherFrameCarries(current, log, base, sent, c, Data(conn, payload));
      }
    } else if current {
      LongerLinkCarries(log, base, sent, c, payload);
    } else {
      IdleLinkCarries(current, log, base, sent, c, payload);
    }
  }

  /** What a device sends is noted, and carried by the current link, if any. */
  lemma DataKeepsLinks(r: Room, conn: string, payload: string)
    requires LinksOk(r.mac, r.links, r.bases, r.sentBy)
    ensures var d := DeviceSent(r, conn, payload); LinksOk(d.mac, d.links, d.bases, d.sentBy)
  {
    var d := DeviceSent(r, conn, payload);
    forall l, c | 0 <= l < |d.links|
      ensures LinkCarries(d.mac == Some(l), d.links[l], Base(d.bases, l, c), Lookup(d.sentBy, c), c)
    {
      DataLinkCarries(r, conn, payload, l, c);
    }
    forall l, m, c | 0 <= l < m < |d.links|
      ensures Base(d.bases, l, c) + |Payloads(d.links[l], c)| <= Base(d.bases, m, c)
    {
      assert d.links[l] == r.links[l];
    }
  }

  /** Other frames carry no payload. */
  lemma ControlKeepsLinks(r: Room, frame: Down)
    requires LinksOk(r.mac, r.links, r.bases, r.sentBy) && !frame.Data?
    ensures var d := SendToMac(r, frame); LinksOk(d.mac, d.links, d.bases, d.sentBy)
  {
    var d := SendToMac(r, frame);
    forall l, c | 0 <= l < |d.links|
      ensures LinkCarries(d.mac == Some(l), d.links[l], Base(d.bases, l, c), Lookup(d.sentBy, c), c)
      ensures Payloads(d.links[l], c) == Payloads(r.links[l], c)
    {
      assert LinkCarries(r.mac == Some(l), r.links[l], Base(r.bases, l, c), Lookup(r.sentBy, c), c);
      OtherFrameCarries(r.mac == Some(l), r.links[l], Base(r.bases, l, c), Lookup(r.sentBy, c), c, frame);
    }
  }

  lemma ConnectKeepsLinks(r: Room, conn: string)
    requires LinksOk(r.mac, r.links, r.bases, r.sentBy) && conn !in r.sentBy
    ensures var d := DeviceConnected(r, conn); LinksOk(d.mac, d.links, d.bases, d.sentBy)
  {
    var d := r.(devices := r.devices[conn := true], sentBy := r.sentBy[conn := []]);
    assert forall c :: Lookup(d.sentBy, c) == Lookup(r.sentBy, c);
    ControlKeepsLinks(d, Open(conn));
  }

  lemma MacConnectedKeepsLinks(r: Room)
    requires LinksOk(r.mac, r.links, r.bases, r.sentBy)
    ensures var d := MacConnected(r); LinksOk(d.mac, d.links, d.bases, d.sentBy)
  {
    var d, n := MacConnected(r), |r.links|;
    forall l, c | 0 <= l < |d.links|
      ensures LinkCarries(d.mac == Some(l), d.links[l], Base(d.bases, l, c), Lookup(d.sentBy, c), c)
    {
      if l < n {
        assert LinkCarries(r.mac == Some(l), r.links[l], Base(r.bases, l, c), Lookup(r.sentBy, c), c);
        assert d.links[l] == r.links[l] && Base(d.bases, l, c) == Base(r.bases, l, c);
      } else {
        assert Base(d.bases, n, c) == |Lookup(r.sentBy, c)|;
      }
    }
    forall l, m, c | 0 <= l < m < |d.links|
      ensures Base(d.bases, l, c) + |Payloads(d.links[l], c)| <= Base(d.bases, m, c)
    {
      assert LinkCarries(r.mac == Some(l), r.links[l], Base(r.bases, l, c), Lookup(r.sentBy, c), c);
      assert m < n ==> Base(d.bases, m, c) == Base(r.bases, m, c);
    }
  }

  /** A longer link still carries all that the blocks hold. */
  lemma LongerLinkKeepsBlocks(relay: Option<nat>, read: seq<Down>, links: seq<seq<Down>>, sockets: seq<Local>, m: nat,
                              frame: Down)
    requires BlocksOk(relay, read, links, sockets) && m < |links|
    ensures BlocksOk(relay, read, links[m := links[m] + [frame]], sockets)
  {
    var longer := links[m := links[m] + [frame]];
    forall l, c | 0 <= l < |longer| ensures Blocks(sockets, l, c) <= Payloads(longer[l], c) {
      PayloadsOfPrefix(links[l], longer[l], c);
    }
  }

  lemma RoomStepKeepsValid(s: System, e: Event)
    requires Valid(s) && Possible(s, e)
    requires e.DeviceConnects? || e.DeviceSends? || e.DeviceErrors? || e.DeviceCloses? || e.MacCloses? || e.RoomHears?
    ensures Valid(Step(s, e))
  {
    var r, c, d := s.room, s.client, Step(s, e).room;
    match e
    case DeviceConnects(conn) =>
      ConnectKeepsLinks(r, conn);
      if r.mac.Some? {
        LongerLinkKeepsBlocks(c.relay, c.read, r.links, c.sockets, r.mac.value, Open(conn));
      }
    case DeviceSends(conn, payload) =>
      DataKeepsLinks(r, conn, payload);
      if r.mac.Some? {
        LongerLinkKeepsBlocks(c.relay, c.read, r.links, c.sockets, r.mac.value, Data(conn, payload));
      }
    case DeviceErrors(conn) =>
      ControlKeepsLinks(r, Shut(conn));
      if r.mac.Some? {
        LongerLinkKeepsBlocks(c.relay, c.read, r.links, c.sockets, r.mac.value, Shut(conn));
      }
    case DeviceCloses(conn) =>
      ControlKeepsLinks(r.(devices := r.devices - {conn}), Shut(conn));
      if r.mac.Some? {
        LongerLinkKeepsBlocks(c.relay, c.read, r.links, c.sockets, r.mac.value, Shut(conn));
      }
    case MacCloses(link) =>
      forall l, x | 0 <= l < |d.links|
        ensures LinkCarries(d.mac == Some(l), d.links[l], Base(d.bases, l, x), Lookup(d.sentBy, x), x)
      {
        assert LinkCarries(r.mac == Some(l), r.links[l], Base(r.bases, l, x), Lookup(r.sentBy, x), x);
      }
    case RoomHears(link) =>
  }

  // ----------------------------------------------------- preservation, the client

  lemma MacConnectsKeepsValid(s: System)
    requires Valid(s) && s.client.relay.None?
    ensures Valid(Step(s, MacConnects))
  {
    var d, n := Step(s, MacConnects), |s.room.links|;
    MacConnectedKeepsLinks(s.room);
    forall l, c | 0 <= l < |d.room.links| ensures Blocks(d.client.sockets, l, c) <= Payloads(d.room.links[l], c) {
      if l == n {
        NoBlocksYet(s.client.sockets, n, c);
      }
    }
    forall c ensures Blocks(d.client.sockets, n, c) == Payloads([], c) {
      NoBlocksYet(s.client.sockets, n, c);
    }
  }

  /** Changes that leave every block alone. */
  lemma SameBlocksKeepBlocksOk(relay: Option<nat>, read: seq<Down>, links: seq<seq<Down>>, x: seq<Local>, y: seq<Local>)
    requires BlocksOk(relay, read, links, x) && |x| == |y| && forall i :: 0 <= i < |x| ==> SameBlock(x[i], y[i])
    ensures BlocksOk(relay, read, links, y)
  {
    forall l, c ensures Blocks(x, l, c) == Blocks(y, l, c) {
      SameBlocks(x, y, l, c);
    }
  }

  lemma OpenedLocalKeepsOk(c: Client, links: seq<seq<Down>>, conn: string)
    requires ClientOk(c, links) && c.relay.Some?
    ensures ClientOk(OpenedLocal(c, conn), links) && conn in OpenedLocal(c, conn).locals
  {
    if conn !in c.locals {
      var local := Local(conn, c.relay.value, Connecting, [], []);
      var d := OpenedLocal(c, conn);
      forall l, x ensures Blocks(d.sockets, l, x) == Blocks(c.sockets, l, x) {
        BlocksOfNext(c.sockets, local, l, x);
      }
      forall x | x in d.locals ensures LiveOk(d.relay, d.sockets, x, d.locals[x]) {
        assert x != conn ==> LiveOk(c.relay, c.sockets, x, c.locals[x]);
      }
    }
  }

  lemma SetPhaseKeepsOk(c: Client, links: seq<seq<Down>>, id: nat)
    requires ClientOk(c, links) && id < |c.sockets|
    ensures ClientOk(SetPhase(c, id, Closing), links)
  {
    var d := SetPhase(c, id, Closing);
    SameBlocksKeepBlocksOk(c.relay, c.read, links, c.sockets, d.sockets);
    forall x | x in d.locals ensures LiveOk(d.relay, d.sockets, x, d.locals[x]) {
      assert LiveOk(c.relay, c.sockets, x, c.locals[x]);
    }
  }

  lemma LocalOpenedKeepsOk(c: Client, links: seq<seq<Down>>, id: nat)
    requires ClientOk(c, links) && id < |c.sockets|
    ensures ClientOk(LocalOpened(c, id), links)
  {
    var d, local := LocalOpened(c, id), c.sockets[id];
    assert local.sent + local.pending + [] == local.sent + local.pending;
    forall i | 0 <= i < |c.sockets| ensures SameBlock(c.sockets[i], d.sockets[i]) {
    }
    SameBlocksKeepBlocksOk(c.relay, c.read, links, c.sockets, d.sockets);
    forall x | x in d.locals ensures LiveOk(d.relay, d.sockets, x, d.locals[x]) {
      assert LiveOk(c.relay, c.sockets, x, c.locals[x]);
    }
  }

  lemma RelayClosedKeepsOk(c: Client, links: seq<seq<Down>>)
    requires ClientOk(c, links)
    ensures ClientOk(RelayClosed(c), links)
  {
    var d := RelayClosed(c);
    forall i | 0 <= i < |c.sockets|
      ensures SameBlock(c.sockets[i], d.sockets[i]) && d.sockets[i].pending == c.sockets[i].pending
    {
    }
    SameBlocksKeepBlocksOk(c.relay, c.read, links, c.sockets, d.sockets);
  }

  lemma HandedKeepsBlocks(link: nat, read: seq<Down>, links: seq<seq<Down>>, sockets: seq<Local>, id: nat, conn: string,
                          payload: string)
    requires BlocksOk(Some(link), read, links, sockets) && LiveOk(Some(link), sockets, conn, id)
    requires sockets[id].phase.Ready? ==> sockets[id].pending == []
    requires |read| < |links[link]| && links[link][|read|] == Data(conn, payload)
    ensures BlocksOk(Some(link), read + [Data(conn, payload)], links, sockets[id := Handed(sockets[id], payload)])
  {
    var longer, grown := read + [Data(conn, payload)], sockets[id := Handed(sockets[id], payload)];
    assert longer <= links[link];
    forall m, x
      ensures Blocks(grown, m, x) ==
              if m == link && x == conn then Blocks(sockets, m, x) + [payload] else Blocks(sockets, m, x)
    {
      BlocksGrow(sockets, id, payload, m, x);
    }
    forall x ensures Blocks(grown, link, x) == Payloads(longer, x) {
      PayloadsOfNext(read, Data(conn, payload), x);
    }
    forall m, x | 0 <= m < |links| ensures Blocks(grown, m, x) <= Payloads(links[m], x) {
      PayloadsOfPrefix(longer, links[link], x);
    }
  }

  /** A payload goes to the one live socket of its connection. */
  lemma DataCameKeepsOk(c: Client, links: seq<seq<Down>>, conn: string, payload: string)
    requires ClientOk(c, links) && c.relay.Some?
    requires |c.read| < |links[c.relay.value]| && links[c.relay.value][|c.read|] == Data(conn, payload)
    ensures ClientOk(DataCame(c, conn, payload).(read := c.read + [Data(conn, payload)]), links)
  {
    var target := OpenedLocal(c, conn);
    OpenedLocalKeepsOk(c, links, conn);
    var id := target.locals[conn];
    HandedKeepsBlocks(c.relay.value, c.read, links, target.sockets, id, conn, payload);
    var d := DataCame(c, conn, payload).(read := c.read + [Data(conn, payload)]);
    assert d.sockets == target.sockets[id := Handed(target.sockets[id], payload)];
    forall x | x in d.locals ensures LiveOk(d.relay, d.sockets, x, d.locals[x]) {
      assert LiveOk(target.relay, target.sockets, x, target.locals[x]);
    }
  }

  lemma ControlCameKeepsOk(c: Client, links: seq<seq<Down>>, frame: Down)
    requires ClientOk(c, links) && c.relay.Some? && !frame.Data?
    requires |c.read| < |links[c.relay.value]| && links[c.relay.value][|c.read|] == frame
    ensures ClientOk(c.(read := c.read + [frame]), links)
  {
    forall x ensures Payloads(c.read + [frame], x) == Payloads(c.read, x) {
      PayloadsOfNext(c.read, frame, x);
    }
    assert c.read + [frame] <= links[c.relay.value];
  }

  lemma ClosedLocalKeepsOk(c: Client, links: seq<seq<Down>>, conn: string)
    requires ClientOk(c, links)
    ensures ClientOk(ClosedLocal(c, conn), links)
  {
    if conn in c.locals {
      assert LiveOk(c.relay, c.sockets, conn, c.locals[conn]);
      var dropped := c.(locals := c.locals - {conn});
      SetPhaseKeepsOk(dropped, links, c.locals[conn]);
    }
  }

  lemma FrameCameKeepsOk(c: Client, links: seq<seq<Down>>)
    requires ClientOk(c, links) && c.relay.Some? && |c.read| < |links[c.relay.value]|
    ensures ClientOk(FrameCame(c, links[c.relay.value][|c.read|]), links)
  {
    var frame := links[c.relay.value][|c.read|];
    match frame
    case Data(conn, payload) => DataCameKeepsOk(c, links, conn, payload);
    case Open(conn) =>
      ControlCameKeepsOk(c, links, frame);
      OpenedLocalKeepsOk(c.(read := c.read + [frame]), links, conn);
      assert FrameCame(c, frame) == OpenedLocal(c.(read := c.read + [frame]), conn);
    case Shut(conn) =>
      ControlCameKeepsOk(c, links, frame);
      ClosedLocalKeepsOk(c.(read := c.read + [frame]), links, conn);
      assert FrameCame(c, frame) == ClosedLocal(c.(read := c.read + [frame]), conn);
  }

  lemma ClientStepKeepsOk(s: System, e: Event)
    requires ClientOk(s.client, s.room.links) && Possible(s, e)
    requires e.ClientReads? || e.LocalOpens? || e.LocalCloses? || e.LocalStartsClosing? || e.LocalSpeaks? ||
             e.RelayCloses?
    ensures Step(s, e).room == s.room && ClientOk(Step(s, e).client, s.room.links)
  {
    var c, links := s.client, s.room.links;
    match e
    case ClientReads => FrameCameKeepsOk(c, links);
    case LocalOpens(id) => LocalOpenedKeepsOk(c, links, id);
    case LocalCloses(id, relayOpen) =>
      SetPhaseKeepsOk(c, links, id);
      SetPhaseKeepsOk(c.(locals := c.locals - {c.sockets[id].conn}), links, id);
    case LocalStartsClosing(id) => SetPhaseKeepsOk(c, links, id);
    case LocalSpeaks(id, payload, relayOpen) =>
    case RelayCloses => RelayClosedKeepsOk(c, links);
  }

  lemma StepKeepsValid(s: System, e: Event)
    requires Valid(s) && Possible(s, e)
    ensures Valid(Step(s, e))
  {
    if e.MacConnects? {
      MacConnectsKeepsValid(s);
    } else if e.ClientReads? || e.LocalOpens? || e.LocalCloses? || e.LocalStartsClosing? || e.LocalSpeaks? ||
              e.RelayCloses? {
      ClientStepKeepsOk(s, e);
    } else {
      RoomStepKeepsValid(s, e);
    }
  }

  lemma {:induction false} RunKeepsValid(s: System, events: seq<Event>)
    requires Valid(s) && PossibleRun(s, events)
    ensures Valid(Run(s, events))
    decreases |events|
  {
    if events != [] {
      StepKeepsValid(s, events[0]);
      RunKeepsValid(Step(s, events[0]), events[1..]);
    }
  }

  // ---------------------------------------------------------------- main results

  /** Where the block of socket `i` starts in all that its connection sent. */
  function StartOf(s: System, i: nat): nat
    requires i < |s.client.sockets| && s.client.sockets[i].link < |s.room.bases|
  {
    var local := s.client.sockets[i];
    Base(s.room.bases, local.link, local.conn) + |Blocks(s.client.sockets[..i], local.link, local.conn)|
  }

  lemma {:induction false} BlockSits(sockets: seq<Local>, i: nat)
    requires i < |sockets|
    ensures var l, c := sockets[i].link, sockets[i].conn;
            Blocks(sockets[..i], l, c) + Block(sockets[i]) <= Blocks(sockets, l, c)
    decreases |sockets|
  {
    var n := |sockets| - 1;
    if i < n {
      assert sockets[..n][..i] == sockets[..i];
      BlockSits(sockets[..n], i);
    }
  }

  lemma {:induction false} LaterBlocksStartLater(sockets: seq<Local>, i: nat, j: nat)
    requires i < j < |sockets| && sockets[i].conn == sockets[j].conn && sockets[i].link == sockets[j].link
    ensures var l, c := sockets[i].link, sockets[i].conn;
            |Blocks(sockets[..i], l, c)| + |Block(sockets[i])| <= |Blocks(sockets[..j], l, c)|
  {
    BlockSits(sockets[..j], i);
    assert sockets[..j][..i] == sockets[..i] && sockets[..j][i] == sockets[i];
  }

  lemma SliceOfSlice(all: seq<string>, base: nat, carried: seq<string>, before: seq<string>, block: seq<string>)
    requires base + |carried| <= |all| && carried == all[base..base + |carried|] && before + block <= carried
    ensures base + |before| + |block| <= |all|
    ensures block == all[base + |before|..base + |before| + |block|]
  {
    forall k | 0 <= k < |block| ensures block[k] == all[base + |before| + k] {
      assert block[k] == (before + block)[|before| + k] == carried[|before| + k];
    }
  }

  /** Socket `i` holds exactly one stretch of what its connection sent, and was
      sent a beginning of it. */
  predicate HoldsOneBlock(s: System, i: nat) {
    && i < |s.client.sockets| && s.client.sockets[i].link < |s.room.bases|
    && var local := s.client.sockets[i];
       var start, all := StartOf(s, i), Lookup(s.room.sentBy, local.conn);
       && start + |Block(local)| <= |all|
       && Block(local) == all[start..start + |Block(local)|] && local.sent <= Block(local)
  }

  lemma ValidBlock(s: System, i: nat)
    requires Valid(s) && i < |s.client.sockets|
    ensures HoldsOneBlock(s, i)
  {
    var local, sockets := s.client.sockets[i], s.client.sockets;
    var l, c := local.link, local.conn;
    BlockSits(sockets, i);
    assert Blocks(sockets, l, c) <= Payloads(s.room.links[l], c);
    assert LinkCarries(s.room.mac == Some(l), s.room.links[l], Base(s.room.bases, l, c), Lookup(s.room.sentBy, c), c);
    SliceOfSlice(Lookup(s.room.sentBy, c), Base(s.room.bases, l, c), Payloads(s.room.links[l], c),
                 Blocks(sockets[..i], l, c), Block(local));
  }

  /** Through buffering, implicit reopening and closing, each local socket is
      sent a prefix of one contiguous block of what exactly one device connection
      sent, in order. */
  lemma EachSocketGetsOneBlock(events: seq<Event>, i: nat)
    requires PossibleRun(EMPTY, events) && i < |Run(EMPTY, events).client.sockets|
    ensures HoldsOneBlock(Run(EMPTY, events), i)
  {
    EmptyIsValid();
    RunKeepsValid(EMPTY, events);
    ValidBlock(Run(EMPTY, events), i);
  }

  lemma EmptyIsValid()
    ensures Valid(EMPTY)
  {
  }

  /** The blocks of a connection follow each other, so nothing is sent twice. */
  lemma BlocksAreDisjoint(events: seq<Event>, i: nat, j: nat)
    requires PossibleRun(EMPTY, events) && i < j < |Run(EMPTY, events).client.sockets|
    requires var sockets := Run(EMPTY, events).client.sockets; sockets[i].conn == sockets[j].conn
    ensures var s := Run(EMPTY, events);
            && s.client.sockets[i].link < |s.room.bases| && s.client.sockets[j].link < |s.room.bases|
            && StartOf(s, i) + |Block(s.client.sockets[i])| <= StartOf(s, j)
  {
    EmptyIsValid();
    RunKeepsValid(EMPTY, events);
    var s := Run(EMPTY, events);
    var x, y := s.client.sockets[i], s.client.sockets[j];
    if x.link == y.link {
      LaterBlocksStartLater(s.client.sockets, i, j);
    } else {
      BlockSits(s.client.sockets, i);
      assert Blocks(s.client.sockets, x.link, x.conn) <= Payloads(s.room.links[x.link], x.conn);
      assert x.link < y.link;
    }
  }

  /** Nothing read from the current link is lost on the way to the sockets: the
      blocks of a connection put together are all that was read for it. */
  lemma EverythingReadIsAssigned(events: seq<Event>, conn: string)
    requires PossibleRun(EMPTY, events) && Run(EMPTY, events).client.relay.Some?
    ensures var c := Run(EMPTY, events).client; Blocks(c.sockets, c.relay.value, conn) == Payloads(c.read, conn)
  {
    EmptyIsValid();
    RunKeepsValid(EMPTY, events);
  }

  // --------------------------------------------------------------------- replies

  /** Every name on the wire belongs to a connection the room accepted. */
  ghost predicate NamesOk(sentBy: map<string, seq<string>>, devices: map<string, bool>, links: seq<seq<Down>>,
                          sockets: seq<Local>, ups: seq<seq<Up>>)
  {
    && devices.Keys <= sentBy.Keys
    && (forall l, k :: 0 <= l < |links| && 0 <= k < |links[l]| ==> links[l][k].conn in sentBy)
    && (forall i :: 0 <= i < |sockets| ==> sockets[i].conn in sentBy)
    && (forall l, k :: 0 <= l < |ups| && 0 <= k < |ups[l]| ==> ups[l][k].conn in sentBy)
  }

  predicate ReplyOk(attached: bool, got: seq<string>, up: seq<Up>, heard: nat, conn: string) {
    && heard <= |up| && got <= Replies(up[..heard], conn)
    && (attached ==> got == Replies(up[..heard], conn))
  }

  predicate Attached(r: Room, conn: string) {
    conn in r.devices && r.devices[conn]
  }

  ghost predicate RepliesOk(r: Room, ups: seq<seq<Up>>) {
    && |r.heard| == |r.got| == |ups|
    && forall l, c :: 0 <= l < |ups| ==> ReplyOk(Attached(r, c), Lookup(r.got[l], c), ups[l], r.heard[l], c)
  }

  ghost predicate Answering(s: System) {
    && NamesOk(s.room.sentBy, s.room.devices, s.room.links, s.client.sockets, s.client.ups)
    && RepliesOk(s.room, s.client.ups) && |s.client.ups| == |s.room.links|
  }

  lemma {:induction false} NoRepliesToStrangers(up: seq<Up>, conn: string)
    requires forall k :: 0 <= k < |up| ==> up[k].conn != conn
    ensures Replies(up, conn) == []
  {
    if up != [] {
      NoRepliesToStrangers(up[..|up| - 1], conn);
    }
  }

  lemma HeardKeepsReplies(r: Room, ups: seq<seq<Up>>, link: nat)
    requires RepliesOk(r, ups) && link < |ups| && r.heard[link] < |ups[link]|
    ensures RepliesOk(Heard(r, link, ups[link][r.heard[link]]), ups)
  {
    var n := r.heard[link];
    var frame := ups[link][n];
    var d := Heard(r, link, frame);
    forall l, c | 0 <= l < |ups| ensures ReplyOk(Attached(d, c), Lookup(d.got[l], c), ups[l], d.heard[l], c) {
      assert ReplyOk(Attached(r, c), Lookup(r.got[l], c), ups[l], r.heard[l], c);
      if l == link {
        assert ups[l][..n + 1][..n] == ups[l][..n];
        assert Attached(d, c) ==> Attached(r, c);
        assert Replies(ups[l][..n + 1], c) ==
               if frame.Reply? && frame.conn == c then Replies(ups[l][..n], c) + [frame.payload]
               else Replies(ups[l][..n], c);
      }
    }
  }

  lemma SentUpKeepsReplies(r: Room, ups: seq<seq<Up>>, link: nat, frame: Up)
    requires RepliesOk(r, ups) && link < |ups|
    ensures RepliesOk(r, ups[link := ups[link] + [frame]])
  {
    var longer := ups[link := ups[link] + [frame]];
    forall l, c | 0 <= l < |longer| ensures ReplyOk(Attached(r, c), Lookup(r.got[l], c), longer[l], r.heard[l], c) {
      assert ReplyOk(Attached(r, c), Lookup(r.got[l], c), ups[l], r.heard[l], c);
      assert longer[l][..r.heard[l]] == ups[l][..r.heard[l]];
    }
  }

  lemma AttachKeepsReplies(r: Room, ups: seq<seq<Up>>, conn: string)
    requires RepliesOk(r, ups) && conn !in r.sentBy
    requires forall l, k :: 0 <= l < |ups| && 0 <= k < |ups[l]| ==> ups[l][k].conn in r.sentBy
    ensures RepliesOk(r.(devices := r.devices[conn := true], sentBy := r.sentBy[conn := []]), ups)
  {
    var d := r.(devices := r.devices[conn := true], sentBy := r.sentBy[conn := []]);
    forall l, c | 0 <= l < |ups| ensures ReplyOk(Attached(d, c), Lookup(d.got[l], c), ups[l], d.heard[l], c) {
      assert ReplyOk(Attached(r, c), Lookup(r.got[l], c), ups[l], r.heard[l], c);
      if c == conn {
        NoRepliesToStrangers(ups[l][..r.heard[l]], conn);
      }
    }
  }

  lemma DetachKeepsReplies(r: Room, d: Room, ups: seq<seq<Up>>)
    requires RepliesOk(r, ups) && d.got == r.got && d.heard == r.heard && forall c :: Attached(d, c) ==> Attached(r, c)
    ensures RepliesOk(d, ups)
  {
    forall l, c | 0 <= l < |ups| ensures ReplyOk(Attached(d, c), Lookup(d.got[l], c), ups[l], d.heard[l], c) {
      assert ReplyOk(Attached(r, c), Lookup(r.got[l], c), ups[l], r.heard[l], c);
    }
  }

  lemma RoomStepKeepsAnswering(s: System, e: Event)
    requires Answering(s) && Possible(s, e) && (s.room.mac.Some? ==> s.room.mac.value < |s.room.links|)
    requires e.DeviceConnects? || e.DeviceSends? || e.DeviceErrors? || e.DeviceCloses? || e.MacCloses? || e.RoomHears?
    ensures Answering(Step(s, e))
  {
    var r, ups, d := s.room, s.client.ups, Step(s, e).room;
    match e
    case DeviceConnects(conn) =>
      AttachKeepsReplies(r, ups, conn);
      if r.mac.Some? {
        DetachKeepsReplies(r.(devices := r.devices[conn := true], sentBy := r.sentBy[conn := []]), d, ups);
      }
    case RoomHears(link) => HeardKeepsReplies(r, ups, link);
    case _ => DetachKeepsReplies(r, d, ups);
  }

  lemma SentUpKeepsAnswering(s: System, c: Client, frame: Up, relayOpen: bool)
    requires Answering(s.(client := c)) && frame.conn in s.room.sentBy
    ensures Answering(s.(client := SentUp(c, frame, relayOpen)))
  {
    if relayOpen && c.relay.Some? && c.relay.value < |c.ups| {
      SentUpKeepsReplies(s.room, c.ups, c.relay.value, frame);
    }
  }

  lemma OpenedLocalKeepsNames(sentBy: map<string, seq<string>>, c: Client, conn: string)
    requires c.relay.Some? && conn in sentBy && forall i :: 0 <= i < |c.sockets| ==> c.sockets[i].conn in sentBy
    ensures var d := OpenedLocal(c, conn);
            (forall i :: 0 <= i < |d.sockets| ==> d.sockets[i].conn in sentBy) && d.ups == c.ups
  {
  }

  lemma FrameCameKeepsAnswering(s: System)
    requires Answering(s) && Possible(s, ClientReads)
    ensures Answering(Step(s, ClientReads))
  {
    var c := s.client;
    var frame := s.room.links[c.relay.value][|c.read|];
    OpenedLocalKeepsNames(s.room.sentBy, c, frame.conn);
    var d := FrameCame(c, frame);
    assert d.ups == c.ups;
    assert forall i :: 0 <= i < |d.sockets| ==> d.sockets[i].conn in s.room.sentBy;
  }

  lemma MacConnectsKeepsAnswering(s: System)
    requires Answering(s)
    ensures Answering(Step(s.(client := s.client.(relay := None)), MacConnects))
  {
    var d := Step(s.(client := s.client.(relay := None)), MacConnects);
    var r, n := s.room, |s.client.ups|;
    forall l, c | 0 <= l < n + 1
      ensures ReplyOk(Attached(d.room, c), Lookup(d.room.got[l], c), d.client.ups[l], d.room.heard[l], c)
    {
      if l < n {
        assert ReplyOk(Attached(r, c), Lookup(r.got[l], c), s.client.ups[l], r.heard[l], c);
      }
    }
  }

  lemma ClientStepKeepsAnswering(s: System, e: Event)
    requires Answering(s) && Possible(s, e)
    requires e.LocalOpens? || e.LocalCloses? || e.LocalStartsClosing? || e.LocalSpeaks? || e.RelayCloses?
    ensures Answering(Step(s, e))
  {
    var c := s.client;
    match e
    case LocalCloses(id, relayOpen) =>
      var closing := SetPhase(c, id, Closing);
      SentUpKeepsAnswering(s, closing.(locals := c.locals - {c.sockets[id].conn}), Hangup(c.sockets[id].conn),
                           relayOpen);
    case LocalSpeaks(id, payload, relayOpen) =>
      SentUpKeepsAnswering(s, c, Reply(c.sockets[id].conn, payload), relayOpen);
    case _ =>
  }

  lemma StepKeepsAnswering(s: System, e: Event)
    requires Valid(s) && Answering(s) && Possible(s, e)
    ensures Answering(Step(s, e))
  {
    if e.MacConnects? {
      assert s.client.(relay := None) == s.client;
      MacConnectsKeepsAnswering(s);
    } else if e.ClientReads? {
      FrameCameKeepsAnswering(s);
    } else if e.LocalOpens? || e.LocalCloses? || e.LocalStartsClosing? || e.LocalSpeaks? || e.RelayCloses? {
      ClientStepKeepsAnswering(s, e);
    } else {
      RoomStepKeepsAnswering(s, e);
    }
  }

  lemma {:induction false} RunKeepsAnswering(s: System, events: seq<Event>)
    requires Valid(s) && Answering(s) && PossibleRun(s, events)
    ensures Answering(Run(s, events))
    decreases |events|
  {
    if events != [] {
      StepKeepsValid(s, events[0]);
      StepKeepsAnswering(s, events[0]);
      RunKeepsAnswering(Step(s, events[0]), events[1..]);
    }
  }

  /** What a device gets over a link is a prefix of what the local sockets of its
      own connection sent up on that link; all that was heard, while it is
      attached. */
  lemma RepliesReachOnlyTheirDevice(events: seq<Event>, link: nat, conn: string)
    requires PossibleRun(EMPTY, events) && link < |Run(EMPTY, events).client.ups|
    ensures var s := Run(EMPTY, events);
            && link < |s.room.got| && link < |s.room.heard|
            && ReplyOk(Attached(s.room, conn), Lookup(s.room.got[link], conn), s.client.ups[link], s.room.heard[link],
                       conn)
  {
    EmptyIsValid();
    RunKeepsAnswering(EMPTY, events);
  }

  // ------------------------------------------------------------------ the objects

  /** The room's sockets; what went over the wires is remembered for the proofs. */
  class RelayRoom {
    var mac: Option<nat>
    var devices: map<string, bool>
    ghost var record: Room

    ghost function State(): Room
      reads this
    {
      record.(mac := mac, devices := devices)
    }

    constructor ()
      ensures State() == EMPTY.room
    {
      mac, devices, record := None, map[], EMPTY.room;
    }

    method SendFrame(frame: Down)
      modifies this`record
      ensures State() == SendToMac(old(State()), frame)
    {
      if mac.Some? && mac.value < |record.links| {
        record := record.(links := record.links[mac.value := record.links[mac.value] + [frame]]);
      }
    }

    /** A device is refused while no Mac is connected. */
    method FetchDevice(conn: string) returns (accepted: bool)
      modifies this
      ensures State() == DeviceConnected(old(State()), conn) && accepted == old(mac).Some?
    {
      if mac.None? {
        return false;
      }
      devices := devices[conn := true];
      record := record.(sentBy := record.sentBy[conn := []]);
      SendFrame(Open(conn));
      accepted := true;
    }

    method FetchMac(link: nat)
      requires link == |State().links|
      modifies this
      ensures State() == MacConnected(old(State()))
    {
      record := record.(links := record.links + [[]],
      bases := record.bases + [map c | c in record.sentBy :: |record.sentBy[c]|],
      heard := record.heard + [0], got := record.got + [map[]]);
      mac := Some(link);
    }

    method DeviceMessage(conn: string, data: string)
      modifies this
      ensures State() == DeviceSent(old(State()), conn, data)
    {
      record := record.(sentBy := record.sentBy[conn := Lookup(record.sentBy, conn) + [data]]);
      SendFrame(Data(conn, data));
    }

    method MacMessage(link: nat, frame: Up)
      requires link < |State().heard| && link < |State().got|
      modifies this
      ensures State() == Heard(old(State()), link, frame)
    {
      record := record.(heard := record.heard[link := record.heard[link] + 1]);
      if frame.conn !in devices || !devices[frame.conn] {
        return;
      }
      match frame {
        case Hangup(conn) => devices := devices[conn := false];
        case Reply(conn, data) =>
          ghost var got := record.got[link];
          record := record.(got := record.got[link := got[conn := Lookup(got, conn) + [data]]]);
      }
    }

    method DeviceSocketClose(conn: string)
      modifies this
      ensures State() == DeviceClosed(old(State()), conn)
    {
      devices := devices - {conn};
      SendFrame(Shut(conn));
    }

    method MacSocketClose(link: nat)
      modifies this
      ensures State() == MacClosed(old(State()), link)
    {
      if mac == Some(link) {
        mac := None;
      }
      var remaining, before := devices.Keys, devices;
      while remaining != {}
        invariant remaining <= before.Keys && devices.Keys == before.Keys
        invariant forall c :: c in before ==> devices[c] == if c in remaining then before[c] else false
        invariant record == old(record) && mac == if old(mac) == Some(link) then None else old(mac)
        decreases remaining
      {
        var conn :| conn in remaining;
        devices := devices[conn := false];
        remaining := remaining - {conn};
      }
      assert devices == map c | c in before :: false;
    }
  }

  /** The Mac's end: its relay socket, the table of locals and their buffers. */
  class CloudRelayClient {
    var relay: Option<nat>
    var locals: map<string, nat>
    var sockets: seq<Local>
    ghost var record: Client

    ghost function State(): Client
      reads this
    {
      record.(relay := relay, locals := locals, sockets := sockets)
    }

    ghost predicate Valid()
      reads this
    {
      forall conn :: conn in locals ==> locals[conn] < |sockets|
    }

    constructor ()
      ensures State() == EMPTY.client && Valid()
    {
      relay, locals, sockets, record := None, map[], [], EMPTY.client;
    }

    method OpenLocal(conn: string) returns (id: nat)
      requires Valid() && relay.Some?
      modifies this
      ensures Valid() && State() == OpenedLocal(old(State()), conn) && conn in locals && id == locals[conn]
    {
      if conn in locals {
        return locals[conn];
      }
      id := |sockets|;
      sockets := sockets + [Local(conn, relay.value, Connecting, [], [])];
      locals := locals[conn := id];
    }

    method CloseLocal(conn: string)
      requires Valid()
      modifies this
      ensures Valid() && State() == ClosedLocal(old(State()), conn)
    {
      if conn in locals {
        var id := locals[conn];
        locals := locals - {conn};
        sockets := sockets[id := sockets[id].(phase := Closing)];
      }
    }

    method OnRelayMessage(frame: Down)
      requires Valid() && relay.Some?
      modifies this
      ensures Valid() && State() == FrameCame(old(State()), frame)
    {
      match frame {
        case Open(conn) =>
          var id := OpenLocal(conn);
        case Shut(conn) =>
          CloseLocal(conn);
        case Data(conn, payload) =>
          var id := OpenLocal(conn);
          var local := sockets[id];
          if local.phase.Ready? {
            sockets := sockets[id := local.(sent := local.sent + [payload])];
          } else {
            sockets := sockets[id := local.(pending := local.pending + [payload])];
          }
      }
      record := record.(read := old(record.read) + [frame]);
    }

    /** The socket's open event flushes the buffer in order. */
    method OnLocalOpen(id: nat)
      requires Valid() && id < |sockets|
      modifies this
      ensures Valid() && State() == LocalOpened(old(State()), id)
    {
      var local := sockets[id];
      if !local.phase.Connecting? {
        return;
      }
      var sent, pending := local.sent, local.pending;
      ghost var all := sent + pending;
      while pending != []
        invariant sent + pending == all
      {
        sent, pending := sent + [pending[0]], pending[1..];
      }
      assert sent == all;
      sockets := sockets[id := local.(phase := Ready, sent := sent, pending := [])];
    }

    method SendUp(frame: Up, relayOpen: bool)
      modifies this`record
      ensures State() == SentUp(old(State()), frame, relayOpen)
    {
      if relayOpen && relay.Some? && relay.value < |record.ups| {
        record := record.(ups := record.ups[relay.value := record.ups[relay.value] + [frame]]);
      }
    }

    method OnLocalMessage(id: nat, data: string, relayOpen: bool)
      requires id < |sockets|
      modifies this
      ensures State() == LocalSpoke(old(State()), id, data, relayOpen)
    {
      SendUp(Reply(sockets[id].conn, data), relayOpen);
    }

    method OnLocalClose(id: nat, relayOpen: bool)
      requires Valid() && id < |sockets|
      modifies this
      ensures Valid() && State() == LocalClosed(old(State()), id, relayOpen)
    {
      var conn := sockets[id].conn;
      sockets := sockets[id := sockets[id].(phase := Closing)];
      if conn !in locals || locals[conn] != id {
        return;
      }
      locals := locals - {conn};
      SendUp(Hangup(conn), relayOpen);
    }

    method OnRelayClose()
      modifies this
      ensures Valid() && State() == RelayClosed(old(State()))
    {
      relay := None;
      for i := 0 to |sockets|
        invariant |sockets| == |old(sockets)| && relay == None && locals == old(locals) && record == old(record)
        invariant forall k :: 0 <= k < |sockets| ==>
          sockets[k] == if k < i then RelayClosed(old(State())).sockets[k] else old(sockets)[k]
      {
        if sockets[i].conn in locals && locals[sockets[i].conn] == i {
          sockets := sockets[i := sockets[i].(phase := Closing)];
        }
      }
      assert sockets == RelayClosed(old(State())).sockets;
      locals := map[];
      record := record.(read := []);
    }
  }
}
