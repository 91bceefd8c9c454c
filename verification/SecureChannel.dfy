/** The Bridge's end of the counted, encrypted channel. Encryption is ideal: a
    ciphertext opens only under the key, counter and associated data it was
    sealed with, and derived keys differ when any input differs. */
module SecureChannel {
  import opened Keys

  datatype Direction = ToServer | ToClient

  datatype Key = Derived(deviceKey: nat, clientNonce: nat, serverNonce: nat, direction: Direction)

  /** A decrypted payload; `wellFormed` is whether it fits the receiver's schema. */
  datatype Plain = Plain(payload: string, wellFormed: bool)

  datatype Cipher = Sealed(key: Key, counter: nat, aad: string, plain: Plain) | Junk

  datatype Proof =
    | ClientProof(deviceKey: nat, clientNonce: nat)
    | ServerProof(deviceKey: nat, clientNonce: nat, serverNonce: nat)
    | BadProof

  /** What can arrive on a socket. */
  datatype Frame =
    | NotJson
    | Auth(deviceId: string, clientNonce: nat, nonceBytes: nat, proof: Proof)
    | AuthOk(serverNonce: nat, serverProof: Proof)
    | Secure(counter: int, cipher: Cipher)
    | Unrecognised

  datatype Device = Device(id: string, deviceKey: nat, revoked: bool)

  const AAD_PREFIX := "zimlo-ws-v1:"
  const NONCE_BYTES := 24
  const INVALID_COMMAND := Plain("invalid_command", true)

  function Decrypt(key: Key, counter: int, cipher: Cipher, aad: string): Option<Plain> {
    if cipher.Sealed? && cipher.key == key && cipher.counter == counter && cipher.aad == aad then Some(cipher.plain)
    else None
  }

  /** `logs` holds everything ever sealed under each key, by counter. The network
      can replay, drop, reorder and invent frames, but not forge a ciphertext. */
  type Logs = map<Key, seq<Plain>>

  predicate Unforged(frame: Frame, logs: Logs) {
    frame.Secure? && frame.cipher.Sealed? ==>
      var c := frame.cipher; c.key in logs && c.counter < |logs[c.key]| && logs[c.key][c.counter] == c.plain
  }

  /** One server connection. `open` is the socket's ready state: a closed socket
      sends nothing but may still hand over frames already in flight. */
  datatype Server = Server(
    device: Option<Device>, clientTx: Option<Key>, serverTx: Option<Key>,
    receiveCounter: nat, sendCounter: nat, open: bool, delivered: seq<Plain>, sent: seq<Frame>)

  const FRESH_SERVER := Server(None, None, None, 0, 0, true, [], [])

  function Closed(s: Server): Server {
    s.(open := false)
  }

  function Aad(s: Server): string {
    AAD_PREFIX + if s.device.Some? then s.device.value.id else "unknown"
  }

  function SendMessage(s: Server, message: Plain): Server {
    if s.device.None? || s.serverTx.None? || !s.open then s
    else s.(sendCounter := s.sendCounter + 1,
            sent := s.sent + [Secure(s.sendCounter, Sealed(s.serverTx.value, s.sendCounter, Aad(s), message))])
  }

  /** `devices` is the registry, `serverNonce` the random nonce drawn here and
      `greeting` the snapshot sent as soon as the connection is authenticated. */
  function Authenticated(s: Server, frame: Frame, devices: map<string, Device>, serverNonce: nat,
                         greeting: Plain): Server
  {
    if !frame.Auth? || frame.deviceId !in devices then Closed(s)
    else
      var device := devices[frame.deviceId];
      if device.revoked || frame.proof != ClientProof(device.deviceKey, frame.clientNonce) then Closed(s)
      else if frame.nonceBytes != NONCE_BYTES then Closed(s)
      else
        var authenticated := s.(device := Some(device),
          clientTx := Some(Derived(device.deviceKey, frame.clientNonce, serverNonce, ToServer)),
          serverTx := Some(Derived(device.deviceKey, frame.clientNonce, serverNonce, ToClient)),
          sent := s.sent + [AuthOk(serverNonce, ServerProof(device.deviceKey, frame.clientNonce, serverNonce))]);
        SendMessage(authenticated, greeting)
  }

  function Received(s: Server, frame: Frame, devices: map<string, Device>, serverNonce: nat, greeting: Plain): Server {
    if frame.NotJson? then Closed(s)
    else if s.device.None? then Authenticated(s, frame, devices, serverNonce, greeting)
    else if !frame.Secure? || frame.counter != s.receiveCounter || s.clientTx.None? then Closed(s)
    else
      var command := Decrypt(s.clientTx.value, frame.counter, frame.cipher, Aad(s));
      if command.None? then Closed(s)
      else if !command.value.wellFormed then SendMessage(s, INVALID_COMMAND)
      else s.(receiveCounter := s.receiveCounter + 1, delivered := s.delivered + [command.value])
  }

  datatype ServerEvent =
    | Arrives(frame: Frame, devices: map<string, Device>, serverNonce: nat, greeting: Plain)
    | Sends(message: Plain)
    | Closes

  function ServerStep(s: Server, e: ServerEvent): Server {
    match e
    case Arrives(frame, devices, serverNonce, greeting) => Received(s, frame, devices, serverNonce, greeting)
    case Sends(message) => SendMessage(s, message)
    case Closes => Closed(s)
  }

  function ServerRun(s: Server, events: seq<ServerEvent>): Server
    decreases |events|
  {
    if events == [] then s else ServerRun(ServerStep(s, events[0]), events[1..])
  }

  ghost predicate NetworkIsIdeal(events: seq<ServerEvent>, logs: Logs) {
    forall e :: e in events && e.Arrives? ==> Unforged(e.frame, logs)
  }

  function LogOf(logs: Logs, key: Option<Key>): seq<Plain> {
    if key.Some? && key.value in logs then logs[key.value] else []
  }

  predicate SealedBy(s: Server, f: Frame)
    requires f.Secure?
  {
    && s.serverTx.Some? && f.cipher.Sealed? && f.cipher.key == s.serverTx.value
    && f.counter == f.cipher.counter < s.sendCounter && f.cipher.aad == Aad(s)
  }

  /** Everything sealed so far, under one key and with rising counters. */
  ghost predicate SentOk(s: Server) {
    && (s.device.None? <==> s.serverTx.None?)
    && (forall i :: 0 <= i < |s.sent| && s.sent[i].Secure? ==> SealedBy(s, s.sent[i]))
    && (forall i, j ::
          0 <= i < j < |s.sent| && s.sent[i].Secure? && s.sent[j].Secure? ==> s.sent[i].counter < s.sent[j].counter)
  }

  /** What was handed over is what the peer sealed first under this key. */
  ghost predicate DeliveredOk(s: Server, logs: Logs) {
    && (s.device.None? <==> s.clientTx.None?)
    && |s.delivered| == s.receiveCounter
    && s.delivered <= LogOf(logs, s.clientTx)
    && (forall i :: 0 <= i < |s.delivered| ==> s.delivered[i].wellFormed)
  }

  ghost predicate ServerOk(s: Server, logs: Logs) {
    SentOk(s) && DeliveredOk(s, logs)
  }

  lemma SendKeepsOk(s: Server, message: Plain)
    requires SentOk(s)
    ensures SentOk(SendMessage(s, message))
  {
    var t := SendMessage(s, message);
    forall i | 0 <= i < |t.sent| && t.sent[i].Secure? ensures SealedBy(t, t.sent[i]) {
      assert i < |s.sent| ==> SealedBy(s, s.sent[i]);
    }
  }

  lemma AuthenticateKeepsOk(s: Server, frame: Frame, devices: map<string, Device>, serverNonce: nat, greeting: Plain,
                            logs: Logs)
    requires ServerOk(s, logs) && s.device.None?
    ensures ServerOk(Authenticated(s, frame, devices, serverNonce, greeting), logs)
  {
    if frame.Auth? && frame.deviceId in devices {
      var device := devices[frame.deviceId];
      var t := s.(device := Some(device),
        clientTx := Some(Derived(device.deviceKey, frame.clientNonce, serverNonce, ToServer)),
        serverTx := Some(Derived(device.deviceKey, frame.clientNonce, serverNonce, ToClient)),
        sent := s.sent + [AuthOk(serverNonce, ServerProof(device.deviceKey, frame.clientNonce, serverNonce))]);
      forall i | 0 <= i < |t.sent| ensures !t.sent[i].Secure? {
        assert i < |s.sent| && s.sent[i].Secure? ==> SealedBy(s, s.sent[i]);
      }
      SendKeepsOk(t, greeting);
    }
  }

  lemma ServerStepKeepsOk(s: Server, e: ServerEvent, logs: Logs)
    requires ServerOk(s, logs) && (e.Arrives? ==> Unforged(e.frame, logs))
    ensures ServerOk(ServerStep(s, e), logs)
  {
    match e
    case Sends(message) => SendKeepsOk(s, message);
    case Closes =>
      var t := Closed(s);
      assert forall i :: 0 <= i < |s.sent| && s.sent[i].Secure? ==> SealedBy(s, s.sent[i]) && SealedBy(t, s.sent[i]);
    case Arrives(frame, devices, serverNonce, greeting) =>
      var t := ServerStep(s, e);
      assert forall i :: 0 <= i < |s.sent| && s.sent[i].Secure? ==> SealedBy(s, s.sent[i]);
      if !frame.NotJson? && s.device.None? {
        AuthenticateKeepsOk(s, frame, devices, serverNonce, greeting, logs);
      } else if t.receiveCounter > s.receiveCounter {
        var log := LogOf(logs, s.clientTx);
        assert s.delivered == log[..s.receiveCounter];
        assert t.delivered == log[..t.receiveCounter];
        assert SentOk(t);
      } else {
        SendKeepsOk(s, INVALID_COMMAND);
        assert SentOk(Closed(s));
      }
  }

  lemma {:induction false} ServerRunKeepsOk(s: Server, events: seq<ServerEvent>, logs: Logs)
    requires ServerOk(s, logs) && NetworkIsIdeal(events, logs)
    ensures ServerOk(ServerRun(s, events), logs)
    decreases |events|
  {
    if events != [] {
      assert events[0] in events && forall e :: e in events[1..] ==> e in events;
      ServerStepKeepsOk(s, events[0], logs);
      ServerRunKeepsOk(ServerStep(s, events[0]), events[1..], logs);
    }
  }

  /** What was sealed on a connection, in order. */
  function SealedOn(frames: seq<Frame>): seq<Plain> {
    if frames == [] then []
    else
      var last, init := frames[|frames| - 1], frames[..|frames| - 1];
      if last.Secure? && last.cipher.Sealed? then SealedOn(init) + [last.cipher.plain] else SealedOn(init)
  }

  predicate SealedAt(frames: seq<Frame>, f: Frame)
    requires f.Secure?
  {
    f.cipher.Sealed? && f.cipher.counter < |SealedOn(frames)| && SealedOn(frames)[f.cipher.counter] == f.cipher.plain
  }

  /** Counters count: a frame's counter is its place among what was sealed. */
  ghost predicate SealsOk(s: Server) {
    && |SealedOn(s.sent)| == s.sendCounter
    && forall i :: 0 <= i < |s.sent| && s.sent[i].Secure? ==> SealedAt(s.sent, s.sent[i])
  }

  lemma OneMoreFrame(frames: seq<Frame>, f: Frame)
    ensures SealedOn(frames + [f]) == SealedOn(frames) + if f.Secure? && f.cipher.Sealed? then [f.cipher.plain] else []
  {
    assert (frames + [f])[..|frames|] == frames;
  }

  lemma SendKeepsSeals(s: Server, message: Plain)
    requires SealsOk(s)
    ensures SealsOk(SendMessage(s, message))
  {
    var t := SendMessage(s, message);
    if t.sendCounter > s.sendCounter {
      OneMoreFrame(s.sent, t.sent[|s.sent|]);
      forall i | 0 <= i < |t.sent| && t.sent[i].Secure? ensures SealedAt(t.sent, t.sent[i]) {
        assert i < |s.sent| ==> SealedAt(s.sent, s.sent[i]);
      }
    }
  }

  lemma AuthenticateKeepsSeals(s: Server, frame: Frame, devices: map<string, Device>, serverNonce: nat, greeting: Plain)
    requires SealsOk(s)
    ensures SealsOk(Authenticated(s, frame, devices, serverNonce, greeting))
  {
    if frame.Auth? && frame.deviceId in devices {
      var device := devices[frame.deviceId];
      var reply := AuthOk(serverNonce, ServerProof(device.deviceKey, frame.clientNonce, serverNonce));
      OneMoreFrame(s.sent, reply);
      var t := s.(device := Some(device),
        clientTx := Some(Derived(device.deviceKey, frame.clientNonce, serverNonce, ToServer)),
        serverTx := Some(Derived(device.deviceKey, frame.clientNonce, serverNonce, ToClient)),
        sent := s.sent + [reply]);
      assert forall i ::
               0 <= i < |t.sent| && t.sent[i].Secure? ==> t.sent[i] == s.sent[i] && SealedAt(s.sent, s.sent[i]);
      SendKeepsSeals(t, greeting);
    }
  }

  lemma ServerStepKeepsSeals(s: Server, e: ServerEvent)
    requires SealsOk(s)
    ensures SealsOk(ServerStep(s, e))
  {
    match e
    case Sends(message) => SendKeepsSeals(s, message);
    case Closes =>
    case Arrives(frame, devices, serverNonce, greeting) =>
      SendKeepsSeals(s, INVALID_COMMAND);
      if s.device.None? {
        AuthenticateKeepsSeals(s, frame, devices, serverNonce, greeting);
      }
  }

  lemma {:induction false} ServerRunKeepsSeals(s: Server, events: seq<ServerEvent>)
    requires SealsOk(s)
    ensures SealsOk(ServerRun(s, events))
    decreases |events|
  {
    if events != [] {
      ServerStepKeepsSeals(s, events[0]);
      ServerRunKeepsSeals(ServerStep(s, events[0]), events[1..]);
    }
  }

  /** Over any network, the commands handed to `onCommand` on one connection are
      a prefix of those its peer sealed; a schema-invalid one is never passed,
      and nothing after it is either. */
  lemma CommandsAreAPrefix(events: seq<ServerEvent>, logs: Logs)
    requires NetworkIsIdeal(events, logs)
    ensures var s := ServerRun(FRESH_SERVER, events);
            && s.delivered <= LogOf(logs, s.clientTx)
            && (forall i ::
                  0 <= i < |LogOf(logs, s.clientTx)| && !LogOf(logs, s.clientTx)[i].wellFormed ==> |s.delivered| <= i)
  {
    ServerRunKeepsOk(FRESH_SERVER, events, logs);
    var s := ServerRun(FRESH_SERVER, events);
    assert forall i :: 0 <= i < |s.delivered| ==> s.delivered[i] == LogOf(logs, s.clientTx)[i];
  }

  /** The server never seals two messages under one key and counter. */
  lemma ServerNoncesAreUnique(events: seq<ServerEvent>, logs: Logs, i: nat, j: nat)
    requires NetworkIsIdeal(events, logs)
    requires var sent := ServerRun(FRESH_SERVER, events).sent; i < j < |sent| && sent[i].Secure? && sent[j].Secure?
    ensures var sent := ServerRun(FRESH_SERVER, events).sent;
            sent[i].cipher.Sealed? && sent[j].cipher.Sealed? && sent[i].cipher.key == sent[j].cipher.key
            && sent[i].cipher.counter < sent[j].cipher.counter
  {
    ServerRunKeepsOk(FRESH_SERVER, events, logs);
    var s := ServerRun(FRESH_SERVER, events);
    assert SealedBy(s, s.sent[i]) && SealedBy(s, s.sent[j]);
  }

  /** An authenticated connection keeps its identity and keys whatever arrives. */
  lemma {:induction false} IdentityIsFixed(s: Server, events: seq<ServerEvent>)
    requires s.device.Some?
    ensures var t := ServerRun(s, events); t.device == s.device && t.clientTx == s.clientTx && t.serverTx == s.serverTx
    decreases |events|
  {
    if events != [] {
      IdentityIsFixed(ServerStep(s, events[0]), events[1..]);
    }
  }

  /** A registered device that is not revoked proves that it knows its key. */
  predicate Proven(frame: Frame, devices: map<string, Device>) {
    && frame.Auth? && frame.deviceId in devices && !devices[frame.deviceId].revoked
    && frame.proof == ClientProof(devices[frame.deviceId].deviceKey, frame.clientNonce) && frame.nonceBytes == 24
  }

  /** A connection is authenticated exactly by such a proof, as that device and under
      the keys that both nonces determine; anything else closes it and changes nothing. */
  lemma AuthenticatesExactlyWhen(s: Server, frame: Frame, devices: map<string, Device>, serverNonce: nat,
                                 greeting: Plain)
    requires s.device.None? && s.serverTx.None? && s.sendCounter == 0
    ensures var t := Received(s, frame, devices, serverNonce, greeting);
            if !Proven(frame, devices) then t == s.(open := false)
            else
              var deviceKey, nonce := devices[frame.deviceId].deviceKey, frame.clientNonce;
              && t.device == Some(devices[frame.deviceId]) && t.open == s.open && t.delivered == s.delivered
              && t.clientTx == Some(Derived(deviceKey, nonce, serverNonce, ToServer))
              && t.serverTx == Some(Derived(deviceKey, nonce, serverNonce, ToClient))
              && |t.sent| > |s.sent|
              && t.sent[|s.sent|] == AuthOk(serverNonce, ServerProof(deviceKey, nonce, serverNonce))
  {
  }

  lemma {:induction false} AuthenticatedWasProven(s: Server, events: seq<ServerEvent>)
    requires s.device.None? && ServerRun(s, events).device.Some?
    ensures exists i :: 0 <= i < |events| && events[i].Arrives? && Proven(events[i].frame, events[i].devices) &&
              ServerRun(s, events).device == Some(events[i].devices[events[i].frame.deviceId])
    decreases |events|
  {
    var next := ServerStep(s, events[0]);
    if next.device.None? {
      AuthenticatedWasProven(next, events[1..]);
      var i :| 0 <= i < |events[1..]| && events[1..][i].Arrives? &&
               Proven(events[1..][i].frame, events[1..][i].devices) &&
               ServerRun(s, events).device == Some(events[1..][i].devices[events[1..][i].frame.deviceId]);
      assert events[i + 1] == events[1..][i];
    } else {
      IdentityIsFixed(next, events[1..]);
      assert Proven(events[0].frame, events[0].devices);
    }
  }

  /** Over any network a command is only handed over on a connection whose device has
      proven itself on it. */
  lemma HandedOverOnlyWhenProven(events: seq<ServerEvent>, logs: Logs)
    requires NetworkIsIdeal(events, logs) && ServerRun(FRESH_SERVER, events).delivered != []
    ensures exists i :: 0 <= i < |events| && events[i].Arrives? && Proven(events[i].frame, events[i].devices)
  {
    ServerRunKeepsOk(FRESH_SERVER, events, logs);
    AuthenticatedWasProven(FRESH_SERVER, events);
  }

  /** On an authenticated connection a frame is handed over exactly when it is the next
      in order, opens, and fits the schema; one that fits the order but not the schema
      is answered; any other closes the connection. */
  lemma HandsOverExactlyWhen(s: Server, frame: Frame, devices: map<string, Device>, serverNonce: nat, greeting: Plain)
    requires s.device.Some? && s.clientTx.Some? && s.serverTx.Some?
    ensures var t := Received(s, frame, devices, serverNonce, greeting);
            var next := frame.Secure? && frame.counter == s.receiveCounter && frame.cipher.Sealed? &&
                        frame.cipher.key == s.clientTx.value && frame.cipher.counter == frame.counter &&
                        frame.cipher.aad == "zimlo-ws-v1:" + s.device.value.id;
            && t.delivered ==
               s.delivered + (if next && frame.cipher.plain.wellFormed then [frame.cipher.plain] else [])
            && t.receiveCounter == s.receiveCounter + (if next && frame.cipher.plain.wellFormed then 1 else 0)
            && t.open == (s.open && next)
            && |t.sent| == |s.sent| + (if next && s.open && !frame.cipher.plain.wellFormed then 1 else 0)
  {
  }

  class SecureSocket {
    var device: Option<Device>
    var clientTxKey: Option<Key>
    var serverTxKey: Option<Key>
    var receiveCounter: nat
    var sendCounter: nat
    var isOpen: bool
    ghost var delivered: seq<Plain>
    ghost var sent: seq<Frame>

    ghost function State(): Server
      reads this
    {
      Server(device, clientTxKey, serverTxKey, receiveCounter, sendCounter, isOpen, delivered, sent)
    }

    constructor ()
      ensures State() == FRESH_SERVER
    {
      device, clientTxKey, serverTxKey, receiveCounter, sendCounter, isOpen := None, None, None, 0, 0, true;
      delivered, sent := [], [];
    }

    method Close()
      modifies this`isOpen
      ensures State() == Closed(old(State()))
    {
      isOpen := false;
    }

    method Send(message: Plain) returns (frame: Option<Frame>)
      modifies this
      ensures State() == SendMessage(old(State()), message)
      ensures frame.Some? <==> old(device.Some? && serverTxKey.Some? && isOpen)
      ensures sent == if frame.Some? then old(sent) + [frame.value] else old(sent)
    {
      if device.None? || serverTxKey.None? || !isOpen {
        return None;
      }
      var counter := sendCounter;
      sendCounter := sendCounter + 1;
      frame := Some(Secure(counter, Sealed(serverTxKey.value, counter, AAD_PREFIX + device.value.id, message)));
      sent := sent + [frame.value];
    }

    /** `command` is what the caller's handler is given. */
    method Receive(frame: Frame, devices: map<string, Device>, serverNonce: nat, greeting: Plain)
      returns (command: Option<Plain>)
      modifies this
      ensures State() == Received(old(State()), frame, devices, serverNonce, greeting)
      ensures delivered == if command.Some? then old(delivered) + [command.value] else old(delivered)
    {
      command := None;
      if frame.NotJson? {
        Close();
        return;
      }
      if device.None? {
        Authenticate(frame, devices, serverNonce, greeting);
        return;
      }
      if !frame.Secure? || frame.counter != receiveCounter || clientTxKey.None? {
        Close();
        return;
      }
      var decrypted := Decrypt(clientTxKey.value, frame.counter, frame.cipher, AAD_PREFIX + device.value.id);
      if decrypted.None? {
        Close();
      } else if !decrypted.value.wellFormed {
        var reply := Send(INVALID_COMMAND);
      } else {
        receiveCounter := receiveCounter + 1;
        delivered := delivered + [decrypted.value];
        command := decrypted;
      }
    }

    method Authenticate(frame: Frame, devices: map<string, Device>, serverNonce: nat, greeting: Plain)
      modifies this
      ensures State() == Authenticated(old(State()), frame, devices, serverNonce, greeting)
    {
      if !frame.Auth? || frame.deviceId !in devices {
        Close();
        return;
      }
      var found := devices[frame.deviceId];
      if found.revoked || frame.proof != ClientProof(found.deviceKey, frame.clientNonce) {
        Close();
        return;
      }
      if frame.nonceBytes != NONCE_BYTES {
        Close();
        return;
      }
      device := Some(found);
      clientTxKey := Some(Derived(found.deviceKey, frame.clientNonce, serverNonce, ToServer));
      serverTxKey := Some(Derived(found.deviceKey, frame.clientNonce, serverNonce, ToClient));
      sent := sent + [AuthOk(serverNonce, ServerProof(found.deviceKey, frame.clientNonce, serverNonce))];
      var snapshot := Send(greeting);
    }
  }
}
