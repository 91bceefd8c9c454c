/** What the relay does bring about: who is attached, which socket serves a
    connection, and that an uninterrupted connection gets everything through. */
module RelayDelivery {
  import opened Keys
  import opened RelayRouting

  // ------------------------------------------------------------------- the room

  function FrameHeard(s: System, link: nat): Up
    requires Possible(s, RoomHears(link))
  {
    s.client.ups[link][s.room.heard[link]]
  }

  /** What takes a device off: its own closing, the loss of any Mac link, or a
      hangup for it. */
  predicate Parts(s: System, e: Event, conn: string)
    requires Possible(s, e)
  {
    match e
    case DeviceCloses(other) => other == conn
    case MacCloses(_) => true
    case RoomHears(link) => FrameHeard(s, link) == Hangup(conn)
    case _ => false
  }

  /** A device is attached exactly when it has been and nothing takes it off, or it
      connects while there is a Mac. */
  lemma AttachedExactlyWhen(s: System, e: Event, conn: string)
    requires Possible(s, e)
    ensures Attached(Step(s, e).room, conn) <==>
            (Attached(s.room, conn) && !Parts(s, e, conn)) || (e == DeviceConnects(conn) && s.room.mac.Some?)
  {
  }

  /** A link is current exactly from when it connects to when it closes or the next
      one connects. */
  lemma CurrentExactlyWhen(s: System, e: Event, link: nat)
    requires Possible(s, e)
    ensures Step(s, e).room.mac == Some(link) <==>
            if e.MacConnects? then link == |s.room.links| else s.room.mac == Some(link) && e != MacCloses(link)
  {
  }

  /** The Mac's client follows: a link is its relay exactly from when it connects to
      when the client's socket for it closes. */
  lemma RelayExactlyWhen(s: System, e: Event, link: nat)
    requires Possible(s, e)
    ensures Step(s, e).client.relay == Some(link) <==>
            if e.MacConnects? then link == |s.room.links| else s.client.relay == Some(link) && !e.RelayCloses?
  {
  }

  ghost predicate NeverParted(s: System, events: seq<Event>, conn: string)
    requires PossibleRun(s, events)
    decreases |events|
  {
    events == [] || (!Parts(s, events[0], conn) && NeverParted(Step(s, events[0]), events[1..], conn))
  }

  lemma {:induction false} PartedStaysParted(s: System, events: seq<Event>, conn: string)
    requires Valid(s) && Answering(s) && PossibleRun(s, events)
    requires conn in s.room.sentBy && !Attached(s.room, conn)
    ensures !Attached(Run(s, events).room, conn)
    decreases |events|
  {
    if events != [] {
      StepKeepsValid(s, events[0]);
      StepKeepsAnswering(s, events[0]);
      AttachedExactlyWhen(s, events[0], conn);
      PartedStaysParted(Step(s, events[0]), events[1..], conn);
    }
  }

  /** Over any run an attached device stays attached exactly when nothing takes it
      off; it never comes back. */
  lemma {:induction false} StaysAttachedExactlyWhen(s: System, events: seq<Event>, conn: string)
    requires Valid(s) && Answering(s) && PossibleRun(s, events) && Attached(s.room, conn)
    ensures Attached(Run(s, events).room, conn) <==> NeverParted(s, events, conn)
    decreases |events|
  {
    if events != [] {
      var next := Step(s, events[0]);
      StepKeepsValid(s, events[0]);
      StepKeepsAnswering(s, events[0]);
      AttachedExactlyWhen(s, events[0], conn);
      if Parts(s, events[0], conn) {
        PartedStaysParted(next, events[1..], conn);
      } else {
        StaysAttachedExactlyWhen(next, events[1..], conn);
      }
    }
  }

  // ----------------------------------------------------------- frames on the wires

  /** What an event of a device makes the room tell the Mac. */
  function Told(e: Event): seq<Down> {
    match e
    case DeviceConnects(conn) => [Open(conn)]
    case DeviceSends(conn, payload) => [Data(conn, payload)]
    case DeviceErrors(conn) => [Shut(conn)]
    case DeviceCloses(conn) => [Shut(conn)]
    case _ => []
  }

  /** The current link gets every such frame, and no other link gets any. */
  lemma EveryDeviceEventIsTold(s: System, e: Event, link: nat)
    requires Valid(s) && Possible(s, e) && link < |s.room.links|
    ensures link < |Step(s, e).room.links|
    ensures Step(s, e).room.links[link] == s.room.links[link] + if s.room.mac == Some(link) then Told(e) else []
  {
  }

  /** What an event of a local socket makes the Mac tell the room. */
  function Answered(c: Client, e: Event): seq<Up> {
    match e
    case LocalSpeaks(id, payload, true) => if id < |c.sockets| then [Reply(c.sockets[id].conn, payload)] else []
    case LocalCloses(id, true) =>
      if id < |c.sockets| && Serves(c, c.sockets[id].conn, id) then [Hangup(c.sockets[id].conn)] else []
    case _ => []
  }

  /** While the relay socket is open, what a local socket says goes up under its
      connection, and so does the closing of the one that serves it. */
  lemma EveryLocalEventIsAnswered(s: System, e: Event, link: nat)
    requires Valid(s) && Possible(s, e) && link < |s.client.ups|
    ensures link < |Step(s, e).client.ups|
    ensures Step(s, e).client.ups[link] ==
            s.client.ups[link] + if s.client.relay == Some(link) then Answered(s.client, e) else []
  {
  }

  // ------------------------------------------------------------------ the sockets

  predicate Serves(c: Client, conn: string, id: nat) {
    conn in c.locals && c.locals[conn] == id
  }

  function FrameRead(s: System): Down
    requires Possible(s, ClientReads)
  {
    s.room.links[s.client.relay.value][|s.client.read|]
  }

  /** What ends the service of a socket: the device has gone, the socket closed, or
      the relay link did. */
  predicate Ends(s: System, e: Event, conn: string, id: nat)
    requires Possible(s, e)
  {
    match e
    case ClientReads => FrameRead(s) == Shut(conn)
    case LocalCloses(other, _) => other == id
    case RelayCloses => true
    case _ => false
  }

  /** A frame for a connection that no socket serves opens one. */
  predicate Opens(s: System, e: Event, conn: string)
    requires Possible(s, e)
  {
    e.ClientReads? && conn !in s.client.locals && FrameRead(s).conn == conn && !FrameRead(s).Shut?
  }

  /** A socket serves a connection exactly when it did and nothing ends that, or it
      is the one just opened for it. */
  lemma ServesExactlyWhen(s: System, e: Event, conn: string, id: nat)
    requires Valid(s) && Possible(s, e)
    ensures Serves(Step(s, e).client, conn, id) <==>
            (Serves(s.client, conn, id) && !Ends(s, e, conn, id)) || (Opens(s, e, conn) && id == |s.client.sockets|)
  {
    if conn in s.client.locals {
      assert LiveOk(s.client.relay, s.client.sockets, conn, s.client.locals[conn]);
    }
    if e.LocalCloses? && s.client.sockets[e.id].conn in s.client.locals {
      var other := s.client.sockets[e.id].conn;
      assert LiveOk(s.client.relay, s.client.sockets, other, s.client.locals[other]);
    }
    if e.ClientReads? {
      var frame := FrameRead(s);
      if frame.conn in s.client.locals {
        assert LiveOk(s.client.relay, s.client.sockets, frame.conn, s.client.locals[frame.conn]);
      }
    }
  }

  /** What a step hands to a socket: the payload just read for the connection it
      serves. */
  function Handing(s: System, e: Event, id: nat): seq<string>
    requires Possible(s, e)
  {
    if e.ClientReads? && FrameRead(s).Data? && Serves(s.client, FrameRead(s).conn, id) then [FrameRead(s).payload]
    else []
  }

  /** Nothing else is ever added to the block of a socket, and nothing taken. */
  lemma BlocksGrowExactly(s: System, e: Event, id: nat)
    requires Valid(s) && Possible(s, e) && id < |s.client.sockets|
    ensures id < |Step(s, e).client.sockets|
    ensures Block(Step(s, e).client.sockets[id]) == Block(s.client.sockets[id]) + Handing(s, e, id)
  {
    var local := s.client.sockets[id];
    if e.ClientReads? {
      var frame := FrameRead(s);
      if frame.conn in s.client.locals {
        assert LiveOk(s.client.relay, s.client.sockets, frame.conn, s.client.locals[frame.conn]);
      }
      if Serves(s.client, frame.conn, id) && frame.Data? {
        assert Block(Handed(local, frame.payload)) == Block(local) + [frame.payload];
      }
    } else if e.LocalOpens? {
      assert local.sent + local.pending + [] == local.sent + local.pending;
    }
  }

  /** A socket starts to close when it says so, when it has closed, or when the
      service it gave ends. */
  predicate Closes(s: System, e: Event, id: nat)
    requires Possible(s, e)
  {
    match e
    case LocalStartsClosing(other) => other == id
    case LocalCloses(other, _) => other == id
    case ClientReads => FrameRead(s).Shut? && Serves(s.client, FrameRead(s).conn, id)
    case RelayCloses => id < |s.client.sockets| && Serves(s.client, s.client.sockets[id].conn, id)
    case _ => false
  }

  lemma PhaseChangesExactly(s: System, e: Event, id: nat)
    requires Valid(s) && Possible(s, e) && id < |s.client.sockets|
    ensures id < |Step(s, e).client.sockets|
    ensures var before, after := s.client.sockets[id].phase, Step(s, e).client.sockets[id].phase;
            after == if Closes(s, e, id) then Closing
                     else if e == LocalOpens(id) && before.Connecting? then Ready
                     else before
  {
    if e.ClientReads? {
      var frame := FrameRead(s);
      if frame.conn in s.client.locals {
        assert LiveOk(s.client.relay, s.client.sockets, frame.conn, s.client.locals[frame.conn]);
      }
    }
  }

  // --------------------------------------------------------------- main result

  /** One socket serves the connection and has got, or keeps for it, all that was
      read for it. */
  predicate GetsEverything(c: Client, conn: string, id: nat) {
    c.relay.Some? && Serves(c, conn, id) && id < |c.sockets| && Block(c.sockets[id]) == Payloads(c.read, conn)
  }

  lemma OpenedGetsEverything(s: System, e: Event, conn: string)
    requires Valid(s) && Possible(s, e) && Opens(s, e, conn) && Payloads(s.client.read, conn) == []
    ensures GetsEverything(Step(s, e).client, conn, |s.client.sockets|)
  {
    PayloadsOfNext(s.client.read, FrameRead(s), conn);
  }

  lemma StillGetsEverything(s: System, e: Event, conn: string, id: nat)
    requires Valid(s) && Possible(s, e) && GetsEverything(s.client, conn, id) && !Ends(s, e, conn, id)
    ensures GetsEverything(Step(s, e).client, conn, id) && Step(s, e).client.relay == s.client.relay
  {
    ServesExactlyWhen(s, e, conn, id);
    BlocksGrowExactly(s, e, id);
    assert LiveOk(s.client.relay, s.client.sockets, conn, id);
    if e.ClientReads? {
      var frame := FrameRead(s);
      PayloadsOfNext(s.client.read, frame, conn);
      if frame.conn in s.client.locals {
        assert LiveOk(s.client.relay, s.client.sockets, frame.conn, s.client.locals[frame.conn]);
      }
    }
  }

  ghost predicate NeverEnds(s: System, events: seq<Event>, conn: string, id: nat)
    requires PossibleRun(s, events)
    decreases |events|
  {
    events == [] || (!Ends(s, events[0], conn, id) && NeverEnds(Step(s, events[0]), events[1..], conn, id))
  }

  lemma {:induction false} StaysInService(s: System, events: seq<Event>, conn: string, id: nat)
    requires Valid(s) && PossibleRun(s, events) && GetsEverything(s.client, conn, id) && NeverEnds(s, events, conn, id)
    ensures Valid(Run(s, events)) && GetsEverything(Run(s, events).client, conn, id)
    ensures Run(s, events).client.relay == s.client.relay
    decreases |events|
  {
    if events != [] {
      StepKeepsValid(s, events[0]);
      StillGetsEverything(s, events[0], conn, id);
      StaysInService(Step(s, events[0]), events[1..], conn, id);
    }
  }

  /** A connection whose service is not ended keeps its one socket. Once that is open
      and the current link read to its end, the socket got, in order and once each,
      all that the device has sent since the link began. */
  lemma UninterruptedConnectionIsDelivered(s: System, events: seq<Event>, conn: string, id: nat)
    requires Valid(s) && PossibleRun(s, events) && GetsEverything(s.client, conn, id) && NeverEnds(s, events, conn, id)
    ensures var after := Run(s, events);
            var link := s.client.relay.value;
            && id < |after.client.sockets| && link < |after.room.links| && link < |after.room.bases|
            && (after.client.sockets[id].phase.Ready? && after.client.read == after.room.links[link]
                && after.room.mac == Some(link) ==>
                  Base(after.room.bases, link, conn) <= |Lookup(after.room.sentBy, conn)| &&
                  after.client.sockets[id].sent ==
                  Lookup(after.room.sentBy, conn)[Base(after.room.bases, link, conn)..])
  {
    StaysInService(s, events, conn, id);
    var after := Run(s, events);
    var link := s.client.relay.value;
    assert LinkCarries(after.room.mac == Some(link), after.room.links[link], Base(after.room.bases, link, conn),
                       Lookup(after.room.sentBy, conn), conn);
  }
}
