/** The phone's end of the channel. Every asynchronous path carries the number of
    the connection generation it belongs to; starting, stopping, retrying and
    pairing move the generation on, so that a late continuation does nothing. */
module ConnectionLease {
  import opened Keys
  import opened SecureChannel
  import HChaCha20

  /** `deviceKey` is None when the stored key text does not decode; the last two
      tell whether a socket URL can be built from each base URL. */
  datatype Credentials = Credentials(
    deviceId: string, deviceKey: Option<nat>, hasRelayURL: bool, hasRelayToken: bool, relayIsBridgeHost: bool,
    bridgeURLBuilds: bool, relayURLBuilds: bool)

  /** A suspended asynchronous continuation with what it captured. */
  datatype Task =
    | StartupTask(generation: nat, credentials: Credentials)
    | PairingTask(generation: nat)
    | ReconnectTask(generation: nat, remote: Option<bool>)
    | AuthTask(generation: nat, socket: nat, credentials: Credentials)
    | AuthSending(generation: nat, socket: nat, credentials: Credentials, clientNonce: nat)
    | AuthWaiting(generation: nat, socket: nat, credentials: Credentials, clientNonce: nat)
    | ReceiveTask(generation: nat, socket: nat, credentials: Credentials)
    | SendTask(generation: nat, socket: nat)

  /** What the snapshot replica and the decoder make of a decrypted message. */
  datatype Verdict = Accept(negotiateDelta: bool) | Resync | Undecodable

  /** How a continuation resumes. `policy` tells whether a failing socket was
      closed for a policy violation. */
  datatype Result =
    | Succeeded
    | Failed(policy: bool)
    | Paired(credentials: Credentials, saved: bool)
    | GotFrame(frame: Frame, verdict: Verdict, policy: bool)

  datatype Seal = Seal(key: Key, counter: nat, plain: Plain)

  /** `seals` lists every encryption in order and `logs` the same by key;
      `consumed` and `verdicts` hold, by key, what was decrypted and whether it
      went to `onMessage`, and `delivered` what did. */
  datatype Client = Client(
    socket: Option<nat>, generation: nat, connected: bool, credentials: Option<Credentials>,
    clientTx: Option<Key>, serverTx: Option<Key>, sendCounter: nat, receiveCounter: nat,
    stopped: bool, startup: Option<nat>, networkAvailable: bool, retryRemoteNext: bool,
    tasks: map<nat, Task>, nextTask: nat, nextSocket: nat, nonces: set<nat>,
    seals: seq<Seal>, logs: Logs, consumed: Logs, verdicts: map<Key, seq<bool>>, delivered: Logs)

  const SNAPSHOT_REQUEST := Plain("snapshot.request", true)

  function Fresh(credentials: Option<Credentials>): Client {
    Client(None, 0, false, credentials, None, None, 0, 0, false, None, true, false,
           map[], 0, 0, {}, [], map[], map[], map[], map[])
  }

  predicate Accepts(c: Client, generation: nat) {
    !c.stopped && generation == c.generation
  }

  predicate IsCurrent(c: Client, socket: nat, generation: nat) {
    Accepts(c, generation) && c.socket == Some(socket)
  }

  function Suspend(c: Client, task: Task): Client {
    c.(tasks := c.tasks[c.nextTask := task], nextTask := c.nextTask + 1)
  }

  function BeginGeneration(c: Client): Client {
    c.(generation := c.generation + 1, socket := None, connected := false,
    clientTx := None, serverTx := None, sendCounter := 0, receiveCounter := 0)
  }

  predicate CanUseRemote(c: Client) {
    c.credentials.Some? && c.credentials.value.hasRelayURL && c.credentials.value.hasRelayToken
  }

  predicate PrefersRemote(credentials: Credentials) {
    credentials.hasRelayToken && credentials.hasRelayURL && credentials.relayIsBridgeHost
  }

  function ScheduledReconnect(c: Client, generation: nat): Client {
    if !c.networkAvailable || c.stopped || !Accepts(c, generation) then c
    else Suspend(c, ReconnectTask(generation, None))
  }

  function Connected(c: Client, remote: bool, expected: nat): Client {
    if !Accepts(c, expected) || c.credentials.None? then c
    else
      var begun := BeginGeneration(c);
      if remote && !c.credentials.value.hasRelayURL then ScheduledReconnect(begun, begun.generation)
      else if !URLBuilds(c.credentials.value, remote) then begun.(retryRemoteNext := !remote)
      else Dialled(begun, remote, c.credentials.value)
  }

  predicate URLBuilds(credentials: Credentials, remote: bool) {
    if remote then credentials.relayURLBuilds else credentials.bridgeURLBuilds
  }

  /** A new socket, and the async work that will authenticate on it. */
  function Dialled(c: Client, remote: bool, credentials: Credentials): Client {
    var dialled := c.(retryRemoteNext := !remote, socket := Some(c.nextSocket), nextSocket := c.nextSocket + 1);
    Suspend(dialled, AuthTask(c.generation, c.nextSocket, credentials))
  }

  function Failing(c: Client, socket: nat, generation: nat, policy: bool): Client {
    if !IsCurrent(c, socket, generation) then c
    else if policy then
      c.(connected := false, generation := c.generation + 1, socket := None, credentials := None, stopped := true)
    else
      var dropped := c.(connected := false, socket := None);
      if dropped.credentials.None? then dropped
      else if dropped.retryRemoteNext && CanUseRemote(dropped) then
        Suspend(dropped, ReconnectTask(generation, Some(true)))
      else ScheduledReconnect(dropped, generation)
  }

  function Started(c: Client): Client {
    var awake := c.(stopped := false);
    if c.socket.Some? || c.connected || c.startup.Some? || c.credentials.None? then awake
    else
      var begun := BeginGeneration(awake);
      Suspend(begun.(startup := Some(begun.generation)), StartupTask(begun.generation, c.credentials.value))
  }

  function Retried(c: Client): Client {
    if c.connected || c.credentials.None? then c
    else Started(BeginGeneration(c.(stopped := false, startup := None)))
  }

  function Stopped(c: Client): Client {
    BeginGeneration(c.(stopped := true, startup := None))
  }

  function PairingBegun(c: Client): Client {
    var begun := BeginGeneration(c.(stopped := false, startup := None));
    Suspend(begun, PairingTask(begun.generation))
  }

  function Sealing(c: Client, message: Plain): Client
    requires c.clientTx.Some?
  {
    var key := c.clientTx.value;
    var log := if key in c.logs then c.logs[key] else [];
    c.(sendCounter := c.sendCounter + 1, seals := c.seals + [Seal(key, c.sendCounter, message)],
       logs := c.logs[key := log + [message]])
  }

  /** A message that cannot be sealed spends its counter and ends the connection. */
  function SealingFailed(c: Client): Client
    requires c.socket.Some?
  {
    Failing(c.(sendCounter := c.sendCounter + 1), c.socket.value, c.generation, false)
  }

  /** `encrypts` tells whether sealing succeeds; the counter moves either way. */
  function Sent(c: Client, message: Plain, encrypts: bool): Client {
    if !c.connected || c.socket.None? || c.clientTx.None? || c.credentials.None? then c
    else if !encrypts then SealingFailed(c)
    else Suspend(Sealing(c, message), SendTask(c.generation, c.socket.value))
  }

  /** The startup marker is cleared when its own task ends, whatever it did. */
  function StartupResumed(c: Client, task: Task, result: Result): Client
    requires task.StartupTask?
  {
    var ended := if c.startup == Some(task.generation) then c.(startup := None) else c;
    if !Accepts(c, task.generation) then ended
    else if result.Succeeded? then Connected(ended, PrefersRemote(task.credentials), task.generation)
    else if task.credentials.hasRelayURL && task.credentials.hasRelayToken then Connected(ended, true, task.generation)
    else ended
  }

  function PairingResumed(c: Client, task: Task, result: Result): Client
    requires task.PairingTask?
  {
    if !result.Paired? || !Accepts(c, task.generation) then c
    else
      var adopted := c.(credentials := Some(result.credentials));
      Connected(if result.saved then adopted else Stopped(adopted), PrefersRemote(result.credentials), task.generation)
  }

  /** `authenticate` in three pieces, split where it waits. A nonce drawn here is
      new: `nonce` is random and 24 bytes long. */
  function AuthResumed(c: Client, task: Task, result: Result, nonce: nat): Client
    requires task.AuthTask? || task.AuthSending? || task.AuthWaiting?
  {
    if !IsCurrent(c, task.socket, task.generation) then c
    else if task.AuthTask? then
      if task.credentials.deviceKey.None? then Failing(c, task.socket, task.generation, result.Failed? && result.policy)
      else Suspend(c.(nonces := c.nonces + {nonce}), AuthSending(task.generation, task.socket, task.credentials, nonce))
    else if task.AuthSending? then
      if result.Failed? then Failing(c, task.socket, task.generation, result.policy)
      else Suspend(c, AuthWaiting(task.generation, task.socket, task.credentials, task.clientNonce))
    else AuthReply(c, task, result)
  }

  /** The reply proves knowledge of the device key for this very handshake. */
  predicate ReplyProven(task: Task, result: Result)
    requires task.AuthWaiting?
  {
    && result.GotFrame? && result.frame.AuthOk? && task.credentials.deviceKey.Some?
    && result.frame.serverProof ==
       ServerProof(task.credentials.deviceKey.value, task.clientNonce, result.frame.serverNonce)
  }

  function Installed(c: Client, clientTx: Key, serverTx: Key): Client {
    c.(clientTx := Some(clientTx), serverTx := Some(serverTx), connected := true,
    logs := c.logs[clientTx := []], consumed := c.consumed[serverTx := []],
    verdicts := c.verdicts[serverTx := []], delivered := c.delivered[serverTx := []])
  }

  function AuthReply(c: Client, task: Task, result: Result): Client
    requires task.AuthWaiting?
  {
    if !ReplyProven(task, result) then
      Failing(c, task.socket, task.generation, (result.Failed? || result.GotFrame?) && result.policy)
    else
      var deviceKey := task.credentials.deviceKey.value;
      var installed := Installed(c, Derived(deviceKey, task.clientNonce, result.frame.serverNonce, ToServer),
                                 Derived(deviceKey, task.clientNonce, result.frame.serverNonce, ToClient));
      Suspend(installed, ReceiveTask(task.generation, task.socket, task.credentials))
  }

  /** The next message in order, when the frame decrypts to one. */
  function ReceivedPlain(c: Client, task: Task, result: Result): Option<Plain>
    requires task.ReceiveTask?
  {
    if !result.GotFrame? || !result.frame.Secure? then None
    else if result.frame.counter != c.receiveCounter || c.serverTx.None? then None
    else Decrypt(c.serverTx.value, result.frame.counter, result.frame.cipher, AAD_PREFIX + task.credentials.deviceId)
  }

  /** The counter moves before the message is judged. */
  function Consuming(c: Client, plain: Plain, accepted: bool): Client
    requires c.serverTx.Some?
    requires c.serverTx.value in c.consumed && c.serverTx.value in c.verdicts && c.serverTx.value in c.delivered
  {
    var key := c.serverTx.value;
    c.(receiveCounter := c.receiveCounter + 1,
    consumed := c.consumed[key := c.consumed[key] + [plain]],
    verdicts := c.verdicts[key := c.verdicts[key] + [accepted]],
    delivered := if accepted then c.delivered[key := c.delivered[key] + [plain]] else c.delivered)
  }

  function ReceiveResumed(c: Client, task: Task, result: Result): Client
    requires task.ReceiveTask?
  {
    if !IsCurrent(c, task.socket, task.generation) then c
    else
      var decrypted := ReceivedPlain(c, task, result);
      if decrypted.None? || c.serverTx.value !in c.consumed || c.serverTx.value !in c.verdicts ||
         c.serverTx.value !in c.delivered then
        Failing(c, task.socket, task.generation, (result.Failed? || result.GotFrame?) && result.policy)
      else
        var counted := Consuming(c, decrypted.value, result.verdict.Accept?);
        if result.verdict.Undecodable? then Failing(counted, task.socket, task.generation, result.policy)
        else Answered(counted, task, result.verdict)
  }

  /** A resync or a delta offer asks for a snapshot; then the loop waits again. */
  function Answered(c: Client, task: Task, verdict: Verdict): Client {
    var asks := verdict.Resync? || (verdict.Accept? && verdict.negotiateDelta);
    Suspend(if asks then Sent(c, SNAPSHOT_REQUEST, true) else c, task)
  }

  function Resumed(c: Client, id: nat, result: Result, nonce: nat): Client {
    if id !in c.tasks then c
    else
      var task, rest := c.tasks[id], c.(tasks := c.tasks - {id});
      match task
      case StartupTask(_, _) => StartupResumed(rest, task, result)
      case PairingTask(_) => PairingResumed(rest, task, result)
      case ReconnectTask(generation, remote) =>
        Connected(rest, if remote.Some? then remote.value else CanUseRemote(rest) && rest.retryRemoteNext, generation)
      case ReceiveTask(_, _, _) => ReceiveResumed(rest, task, result)
      case SendTask(generation, socket) =>
        if result.Failed? then Failing(rest, socket, generation, result.policy) else rest
      case _ => AuthResumed(rest, task, result, nonce)
  }

  datatype Event =
    | Start
    | RetryNow
    | Stop
    | Forget
    | Pair
    | NetworkChanges(available: bool)
    | UserSends(message: Plain, encrypts: bool)
    | Resume(id: nat, result: Result, nonce: nat)

  function Step(c: Client, e: Event): Client {
    match e
    case Start => Started(c)
    case RetryNow => Retried(c)
    case Stop => Stopped(c)
    case Forget => Stopped(c).(credentials := None)
    case Pair => PairingBegun(c)
    case NetworkChanges(available) =>
      var seen := c.(networkAvailable := available);
      if available && !c.networkAvailable && !c.connected && !c.stopped && c.credentials.Some? then Retried(seen)
      else seen
    case UserSends(message, encrypts) => Sent(c, message, encrypts)
    case Resume(id, result, nonce) => Resumed(c, id, result, nonce)
  }

  function Run(c: Client, events: seq<Event>): Client
    decreases |events|
  {
    if events == [] then c else Run(Step(c, events[0]), events[1..])
  }

  /** Random nonces are new, and the network cannot forge. */
  predicate Plausible(c: Client, e: Event, peer: Logs) {
    e.Resume? ==> e.nonce !in c.nonces && (e.result.GotFrame? ==> Unforged(e.result.frame, peer))
  }

  ghost predicate PlausibleRun(c: Client, events: seq<Event>, peer: Logs)
    decreases |events|
  {
    events == [] || (Plausible(c, events[0], peer) && PlausibleRun(Step(c, events[0]), events[1..], peer))
  }

  // --------------------------------------------------------------- invariants

  ghost predicate LeaseOk(c: Client) {
    && (c.startup.Some? ==>
          && c.startup.value == c.generation && !c.stopped && c.socket.None?
          && forall id :: id in c.tasks && c.tasks[id].generation == c.generation ==> c.tasks[id].StartupTask?)
    && (c.socket.Some? ==> c.credentials.Some? && !c.stopped)
    && (c.connected ==> c.socket.Some? && c.clientTx.Some? && c.serverTx.Some?)
    && (forall id :: id in c.tasks ==> id < c.nextTask && c.tasks[id].generation <= c.generation)
  }

  predicate Authenticating(task: Task) {
    task.AuthTask? || task.AuthSending? || task.AuthWaiting?
  }

  predicate SameHandshake(x: Task, y: Task) {
    Authenticating(x) && Authenticating(y) && x.socket == y.socket
  }

  /** Each socket has one handshake, and keys only once it is over. */
  ghost predicate HandshakesOk(c: Client) {
    && (c.socket.Some? ==> c.socket.value < c.nextSocket)
    && (forall id :: id in c.tasks && Authenticating(c.tasks[id]) ==> c.tasks[id].socket < c.nextSocket)
    && (forall x, y :: x in c.tasks && y in c.tasks && SameHandshake(c.tasks[x], c.tasks[y]) ==> x == y)
    && (forall id ::
          id in c.tasks && Authenticating(c.tasks[id]) && c.socket == Some(c.tasks[id].socket) ==> c.clientTx.None?)
    && (c.clientTx.None? <==> c.serverTx.None?)
    && (c.clientTx.None? ==> c.sendCounter == 0 && c.receiveCounter == 0)
  }

  function PendingNonce(task: Task): Option<nat> {
    if task.AuthSending? || task.AuthWaiting? then Some(task.clientNonce) else None
  }

  predicate SamePendingNonce(x: Task, y: Task) {
    PendingNonce(x).Some? && PendingNonce(x) == PendingNonce(y)
  }

  /** A drawn nonce is pending in one task or already turned into keys, not both. */
  ghost predicate NoncesOk(tasks: map<nat, Task>, nonces: set<nat>, logs: Logs, consumed: Logs) {
    && (forall id :: id in tasks && PendingNonce(tasks[id]).Some? ==> PendingNonce(tasks[id]).value in nonces)
    && (forall x, y :: x in tasks && y in tasks && SamePendingNonce(tasks[x], tasks[y]) ==> x == y)
    && (forall key :: key in logs || key in consumed ==> key.clientNonce in nonces)
    && (forall id, key ::
          id in tasks && (key in logs || key in consumed) ==> PendingNonce(tasks[id]) != Some(key.clientNonce))
  }

  function SealedUnder(seals: seq<Seal>, key: Key): seq<Plain> {
    if seals == [] then []
    else
      var last, init := seals[|seals| - 1], seals[..|seals| - 1];
      if last.key == key then SealedUnder(init, key) + [last.plain] else SealedUnder(init, key)
  }

  /** The log of a key is what was sealed under it, and its counters count. */
  ghost predicate OutboundOk(seals: seq<Seal>, logs: Logs) {
    && (forall key :: key in logs ==> logs[key] == SealedUnder(seals, key))
    && (forall i :: 0 <= i < |seals| ==> seals[i].key in logs && seals[i].counter < |logs[seals[i].key]|)
    && (forall i, j :: 0 <= i < j < |seals| && seals[i].key == seals[j].key ==> seals[i].counter < seals[j].counter)
  }

  predicate SendCounterOk(c: Client) {
    && (c.clientTx.Some? ==> c.clientTx.value in c.logs)
    && (c.connected && c.clientTx.Some? ==> c.clientTx.value in c.logs && c.sendCounter == |c.logs[c.clientTx.value]|)
  }

  function Select<T>(messages: seq<T>, verdicts: seq<bool>): seq<T>
    requires |messages| == |verdicts|
  {
    if messages == [] then []
    else
      var n := |messages| - 1;
      if verdicts[n] then Select(messages[..n], verdicts[..n]) + [messages[n]] else Select(messages[..n], verdicts[..n])
  }

  predicate InboundKeyOk(consumed: seq<Plain>, verdicts: seq<bool>, delivered: seq<Plain>, log: seq<Plain>) {
    |verdicts| == |consumed| && consumed <= log && delivered == Select(consumed, verdicts)
  }

  /** By key: a prefix of what the peer sealed was decrypted, and `onMessage` got
      exactly the accepted part of it. */
  ghost predicate InboundOk(consumed: Logs, verdicts: map<Key, seq<bool>>, delivered: Logs, peer: Logs) {
    forall key :: key in consumed ==>
      key in verdicts && key in delivered &&
      InboundKeyOk(consumed[key], verdicts[key], delivered[key], LogOf(peer, Some(key)))
  }

  predicate ReceiveCounterOk(c: Client) {
    c.serverTx.Some? ==> c.serverTx.value in c.consumed && |c.consumed[c.serverTx.value]| == c.receiveCounter
  }

  ghost predicate Valid(c: Client, peer: Logs) {
    && LeaseOk(c) && HandshakesOk(c) && NoncesOk(c.tasks, c.nonces, c.logs, c.consumed) && OutboundOk(c.seals, c.logs)
    && InboundOk(c.consumed, c.verdicts, c.delivered, peer) && SendCounterOk(c) && ReceiveCounterOk(c)
  }

  // ------------------------------------------------------ preservation lemmas

  lemma SuspendKeepsValid(c: Client, task: Task, peer: Logs)
    requires Valid(c, peer) && task.generation <= c.generation && (c.startup.Some? ==> task.StartupTask?)
    requires PendingNonce(task).Some? ==>
               var nonce := PendingNonce(task).value;
               && nonce in c.nonces
               && (forall id :: id in c.tasks ==> PendingNonce(c.tasks[id]) != Some(nonce))
               && (forall key :: key in c.logs || key in c.consumed ==> key.clientNonce != nonce)
    requires Authenticating(task) ==>
               && task.socket < c.nextSocket && (c.socket == Some(task.socket) ==> c.clientTx.None?)
               && forall id :: id in c.tasks && Authenticating(c.tasks[id]) ==> c.tasks[id].socket != task.socket
    ensures Valid(Suspend(c, task), peer)
  {
    SuspendKeepsLease(c, task);
    SuspendKeepsHandshakes(c, task);
    SuspendKeepsNonces(c, task);
  }

  lemma SuspendKeepsLease(c: Client, task: Task)
    requires LeaseOk(c) && task.generation <= c.generation && (c.startup.Some? ==> task.StartupTask?)
    ensures LeaseOk(Suspend(c, task))
  {
  }

  lemma SuspendKeepsHandshakes(c: Client, task: Task)
    requires LeaseOk(c) && HandshakesOk(c)
    requires Authenticating(task) ==>
               && task.socket < c.nextSocket && (c.socket == Some(task.socket) ==> c.clientTx.None?)
               && forall id :: id in c.tasks && Authenticating(c.tasks[id]) ==> c.tasks[id].socket != task.socket
    ensures HandshakesOk(Suspend(c, task))
  {
    assert c.nextTask !in c.tasks;
  }

  lemma SuspendKeepsNonces(c: Client, task: Task)
    requires LeaseOk(c) && NoncesOk(c.tasks, c.nonces, c.logs, c.consumed)
    requires PendingNonce(task).Some? ==>
               var nonce := PendingNonce(task).value;
               && nonce in c.nonces
               && (forall id :: id in c.tasks ==> PendingNonce(c.tasks[id]) != Some(nonce))
               && (forall key :: key in c.logs || key in c.consumed ==> key.clientNonce != nonce)
    ensures var d := Suspend(c, task); NoncesOk(d.tasks, d.nonces, d.logs, d.consumed)
  {
    assert c.nextTask !in c.tasks;
  }

  lemma ScheduledReconnectKeepsValid(c: Client, generation: nat, peer: Logs)
    requires Valid(c, peer) && c.startup.None?
    ensures Valid(ScheduledReconnect(c, generation), peer)
  {
    if c.networkAvailable && !c.stopped && Accepts(c, generation) {
      SuspendKeepsValid(c, ReconnectTask(generation, None), peer);
    }
  }

  lemma BeginKeepsValid(c: Client, peer: Logs)
    requires Valid(c, peer) && c.startup.None?
    ensures Valid(BeginGeneration(c), peer)
  {
  }

  lemma DialKeepsValid(c: Client, remote: bool, credentials: Credentials, peer: Logs)
    requires Valid(c, peer) && c.startup.None? && c.clientTx.None? && c.credentials.Some? && !c.stopped
    ensures Valid(Dialled(c, remote, credentials), peer)
  {
    var dialled := c.(retryRemoteNext := !remote, socket := Some(c.nextSocket), nextSocket := c.nextSocket + 1);
    assert Valid(dialled, peer);
    SuspendKeepsValid(dialled, AuthTask(c.generation, c.nextSocket, credentials), peer);
  }

  lemma ConnectedKeepsValid(c: Client, remote: bool, expected: nat, peer: Logs)
    requires Valid(c, peer) && c.startup.None?
    ensures Valid(Connected(c, remote, expected), peer)
  {
    if Accepts(c, expected) && c.credentials.Some? {
      var begun := BeginGeneration(c);
      BeginKeepsValid(c, peer);
      if remote && !c.credentials.value.hasRelayURL {
        ScheduledReconnectKeepsValid(begun, begun.generation, peer);
        assert Connected(c, remote, expected) == ScheduledReconnect(begun, begun.generation);
      } else if !URLBuilds(c.credentials.value, remote) {
        assert Connected(c, remote, expected) == begun.(retryRemoteNext := !remote);
      } else {
        DialKeepsValid(begun, remote, c.credentials.value, peer);
        assert Connected(c, remote, expected) == Dialled(begun, remote, c.credentials.value);
      }
    } else {
      assert Connected(c, remote, expected) == c;
    }
  }

  lemma FailingKeepsValid(c: Client, socket: nat, generation: nat, policy: bool, peer: Logs)
    requires Valid(c, peer) || (IsCurrent(c, socket, generation) && Valid(c.(connected := false), peer))
    ensures Valid(Failing(c, socket, generation, policy), peer)
  {
    if IsCurrent(c, socket, generation) {
      var dropped := c.(connected := false, socket := None);
      assert Valid(dropped, peer);
      if !policy && dropped.credentials.Some? {
        if dropped.retryRemoteNext && CanUseRemote(dropped) {
          SuspendKeepsValid(dropped, ReconnectTask(generation, Some(true)), peer);
        } else {
          ScheduledReconnectKeepsValid(dropped, generation, peer);
        }
      }
    }
  }

  lemma StartedKeepsValid(c: Client, peer: Logs)
    requires Valid(c, peer)
    ensures Valid(Started(c), peer)
  {
    var awake := c.(stopped := false);
    assert Valid(awake, peer);
    if !(c.socket.Some? || c.connected || c.startup.Some? || c.credentials.None?) {
      var begun := BeginGeneration(awake);
      var marked := begun.(startup := Some(begun.generation));
      assert Valid(marked, peer);
      SuspendKeepsValid(marked, StartupTask(begun.generation, c.credentials.value), peer);
    }
  }

  lemma RetriedKeepsValid(c: Client, peer: Logs)
    requires Valid(c, peer)
    ensures Valid(Retried(c), peer)
  {
    var begun := BeginGeneration(c.(stopped := false, startup := None));
    assert Valid(begun, peer);
    StartedKeepsValid(begun, peer);
  }

  lemma PairingBegunKeepsValid(c: Client, peer: Logs)
    requires Valid(c, peer)
    ensures Valid(PairingBegun(c), peer)
  {
    var begun := BeginGeneration(c.(stopped := false, startup := None));
    assert Valid(begun, peer);
    SuspendKeepsValid(begun, PairingTask(begun.generation), peer);
  }

  lemma SealKeepsOutbound(seals: seq<Seal>, logs: Logs, key: Key, plain: Plain)
    requires OutboundOk(seals, logs) && key in logs
    ensures OutboundOk(seals + [Seal(key, |logs[key]|, plain)], logs[key := logs[key] + [plain]])
  {
    var n := |seals|;
    var grown, longer := seals + [Seal(key, |logs[key]|, plain)], logs[key := logs[key] + [plain]];
    assert grown[..n] == seals;
    assert forall k :: k in longer ==> longer[k] == SealedUnder(grown, k);
    forall i | 0 <= i < |grown| ensures grown[i].key in longer && grown[i].counter < |longer[grown[i].key]| {
      assert i < n ==> grown[i] == seals[i];
    }
    forall i, j | 0 <= i < j < |grown| && grown[i].key == grown[j].key ensures grown[i].counter < grown[j].counter {
      assert grown[i] == seals[i];
      assert j < n ==> grown[j] == seals[j];
    }
  }

  lemma SealingKeepsValid(c: Client, message: Plain, peer: Logs)
    requires Valid(c, peer) && c.connected
    ensures Valid(Sealing(c, message), peer)
  {
    SealKeepsOutbound(c.seals, c.logs, c.clientTx.value, message);
    assert Sealing(c, message).logs.Keys == c.logs.Keys;
  }

  lemma UnsealedKeepsValid(c: Client, peer: Logs)
    requires Valid(c, peer) && c.connected
    ensures Valid(SealingFailed(c), peer)
  {
    var counted := c.(sendCounter := c.sendCounter + 1);
    assert Valid(counted.(connected := false), peer);
    FailingKeepsValid(counted, c.socket.value, c.generation, false, peer);
  }

  lemma SentKeepsValid(c: Client, message: Plain, encrypts: bool, peer: Logs)
    requires Valid(c, peer)
    ensures Valid(Sent(c, message, encrypts), peer)
  {
    if c.connected {
      assert LeaseOk(c);
      if encrypts {
        SealingKeepsValid(c, message, peer);
        SuspendKeepsValid(Sealing(c, message), SendTask(c.generation, c.socket.value), peer);
        assert Sent(c, message, encrypts) == Suspend(Sealing(c, message), SendTask(c.generation, c.socket.value));
      } else {
        UnsealedKeepsValid(c, peer);
        assert Sent(c, message, encrypts) == SealingFailed(c);
      }
    } else {
      assert Sent(c, message, encrypts) == c;
    }
  }

  lemma {:induction false} NothingSealedUnder(seals: seq<Seal>, key: Key)
    requires forall i :: 0 <= i < |seals| ==> seals[i].key != key
    ensures SealedUnder(seals, key) == []
  {
    if seals != [] {
      NothingSealedUnder(seals[..|seals| - 1], key);
    }
  }

  /** The nonce of a task that just resumed belongs to nothing else. */
  ghost predicate Unclaimed(c: Client, nonce: nat) {
    && nonce in c.nonces
    && (forall id :: id in c.tasks ==> PendingNonce(c.tasks[id]) != Some(nonce))
    && (forall key :: key in c.logs || key in c.consumed ==> key.clientNonce != nonce)
  }

  lemma TakeTaskKeepsValid(c: Client, id: nat, peer: Logs)
    requires Valid(c, peer) && id in c.tasks
    ensures var task, rest := c.tasks[id], c.(tasks := c.tasks - {id});
            && Valid(rest, peer)
            && (PendingNonce(task).Some? ==> Unclaimed(rest, PendingNonce(task).value))
            && (Authenticating(task) ==>
                  && task.socket < c.nextSocket && (c.socket == Some(task.socket) ==> c.clientTx.None?)
                  && forall x ::
                       x in rest.tasks && Authenticating(rest.tasks[x]) ==> rest.tasks[x].socket != task.socket)
            && task.generation <= c.generation && (c.startup.Some? && Accepts(c, task.generation) ==> task.StartupTask?)
  {
    var rest := c.(tasks := c.tasks - {id});
    assert forall x :: x in rest.tasks ==> x in c.tasks && rest.tasks[x] == c.tasks[x] && x != id;
    assert forall x :: x in rest.tasks && Authenticating(rest.tasks[x]) && Authenticating(c.tasks[id]) ==>
                         !SameHandshake(c.tasks[x], c.tasks[id]);
    assert forall x ::
             x in rest.tasks && PendingNonce(c.tasks[id]).Some? ==> !SamePendingNonce(c.tasks[x], c.tasks[id]);
  }

  lemma InstallKeepsOutbound(seals: seq<Seal>, logs: Logs, key: Key)
    requires OutboundOk(seals, logs) && key !in logs
    ensures OutboundOk(seals, logs[key := []])
  {
    forall i | 0 <= i < |seals| ensures seals[i].key != key {}
    NothingSealedUnder(seals, key);
  }

  lemma InstallKeepsNonces(tasks: map<nat, Task>, nonces: set<nat>, logs: Logs, consumed: Logs, x: Key, y: Key)
    requires NoncesOk(tasks, nonces, logs, consumed) && x.clientNonce == y.clientNonce && x.clientNonce in nonces
    requires forall id :: id in tasks ==> PendingNonce(tasks[id]) != Some(x.clientNonce)
    ensures NoncesOk(tasks, nonces, logs[x := []], consumed[y := []])
  {
    assert forall key ::
             key in logs[x := []] || key in consumed[y := []] ==>
               key in logs || key in consumed || key == x || key == y;
  }

  lemma InstallKeepsInbound(consumed: Logs, verdicts: map<Key, seq<bool>>, delivered: Logs, peer: Logs, key: Key)
    requires InboundOk(consumed, verdicts, delivered, peer)
    ensures InboundOk(consumed[key := []], verdicts[key := []], delivered[key := []], peer)
  {
  }

  lemma InstallKeepsValid(c: Client, clientTx: Key, serverTx: Key, peer: Logs)
    requires Valid(c, peer) && c.startup.None? && Unclaimed(c, clientTx.clientNonce) &&
             serverTx.clientNonce == clientTx.clientNonce
    requires c.socket.Some? && c.clientTx.None?
    requires forall id :: id in c.tasks && Authenticating(c.tasks[id]) ==> c.socket != Some(c.tasks[id].socket)
    ensures Valid(Installed(c, clientTx, serverTx), peer)
  {
    var d := Installed(c, clientTx, serverTx);
    InstallKeepsOutbound(c.seals, c.logs, clientTx);
    InstallKeepsInbound(c.consumed, c.verdicts, c.delivered, peer, serverTx);
    assert LeaseOk(d) && HandshakesOk(d);
    InstallKeepsNonces(c.tasks, c.nonces, c.logs, c.consumed, clientTx, serverTx);
  }

  lemma AuthResumedKeepsValid(c: Client, task: Task, result: Result, nonce: nat, peer: Logs)
    requires Valid(c, peer) && Authenticating(task) && nonce !in c.nonces
    requires PendingNonce(task).Some? ==> Unclaimed(c, PendingNonce(task).value)
    requires task.socket < c.nextSocket && (c.socket == Some(task.socket) ==> c.clientTx.None?)
    requires forall id :: id in c.tasks && Authenticating(c.tasks[id]) ==> c.tasks[id].socket != task.socket
    ensures Valid(AuthResumed(c, task, result, nonce), peer)
  {
    if IsCurrent(c, task.socket, task.generation) {
      if task.AuthTask? && task.credentials.deviceKey.Some? {
        var drawn := c.(nonces := c.nonces + {nonce});
        assert Valid(drawn, peer);
        SuspendKeepsValid(drawn, AuthSending(task.generation, task.socket, task.credentials, nonce), peer);
      } else if task.AuthSending? && !result.Failed? {
        SuspendKeepsValid(c, AuthWaiting(task.generation, task.socket, task.credentials, task.clientNonce), peer);
      } else if task.AuthWaiting? {
        AuthReplyKeepsValid(c, task, result, peer);
      } else {
        FailingKeepsValid(c, task.socket, task.generation, result.Failed? && result.policy, peer);
      }
    }
  }

  lemma AuthReplyKeepsValid(c: Client, task: Task, result: Result, peer: Logs)
    requires Valid(c, peer) && task.AuthWaiting? && IsCurrent(c, task.socket, task.generation)
    requires Unclaimed(c, task.clientNonce) && c.clientTx.None?
    requires forall id :: id in c.tasks && Authenticating(c.tasks[id]) ==> c.tasks[id].socket != task.socket
    ensures Valid(AuthReply(c, task, result), peer)
  {
    if ReplyProven(task, result) {
      var dk := task.credentials.deviceKey.value;
      var clientTx := Derived(dk, task.clientNonce, result.frame.serverNonce, ToServer);
      var serverTx := Derived(dk, task.clientNonce, result.frame.serverNonce, ToClient);
      InstallKeepsValid(c, clientTx, serverTx, peer);
      SuspendKeepsValid(Installed(c, clientTx, serverTx), ReceiveTask(task.generation, task.socket, task.credentials),
                        peer);
    } else {
      FailingKeepsValid(c, task.socket, task.generation, (result.Failed? || result.GotFrame?) && result.policy, peer);
    }
  }

  lemma ReceiveStepIsInbound(consumed: Logs, verdicts: map<Key, seq<bool>>, delivered: Logs, peer: Logs, key: Key,
                             plain: Plain, accepted: bool)
    requires InboundOk(consumed, verdicts, delivered, peer) && key in consumed
    requires |consumed[key]| < |LogOf(peer, Some(key))| && LogOf(peer, Some(key))[|consumed[key]|] == plain
    ensures InboundOk(consumed[key := consumed[key] + [plain]], verdicts[key := verdicts[key] + [accepted]],
                      if accepted then delivered[key := delivered[key] + [plain]] else delivered, peer)
  {
    var log, longer, judged := LogOf(peer, Some(key)), consumed[key] + [plain], verdicts[key] + [accepted];
    assert InboundKeyOk(consumed[key], verdicts[key], delivered[key], log);
    assert longer == log[..|longer|];
    assert longer[..|longer| - 1] == consumed[key] && judged[..|longer| - 1] == verdicts[key];
  }

  lemma ConsumingKeepsValid(c: Client, plain: Plain, accepted: bool, peer: Logs)
    requires Valid(c, peer) && c.serverTx.Some?
    requires c.receiveCounter < |LogOf(peer, c.serverTx)| && LogOf(peer, c.serverTx)[c.receiveCounter] == plain
    ensures c.serverTx.value in c.consumed && c.serverTx.value in c.verdicts && c.serverTx.value in c.delivered
    ensures Valid(Consuming(c, plain, accepted), peer)
  {
    var key, d := c.serverTx.value, Consuming(c, plain, accepted);
    ReceiveStepIsInbound(c.consumed, c.verdicts, c.delivered, peer, key, plain, accepted);
    assert d.consumed.Keys == c.consumed.Keys;
  }

  lemma AnsweredKeepsValid(c: Client, task: Task, verdict: Verdict, peer: Logs)
    requires Valid(c, peer) && task.ReceiveTask? && IsCurrent(c, task.socket, task.generation)
    ensures Valid(Answered(c, task, verdict), peer)
  {
    assert LeaseOk(c);
    if verdict.Resync? || (verdict.Accept? && verdict.negotiateDelta) {
      SentKeepsValid(c, SNAPSHOT_REQUEST, true, peer);
      SuspendKeepsValid(Sent(c, SNAPSHOT_REQUEST, true), task, peer);
    } else {
      SuspendKeepsValid(c, task, peer);
    }
  }

  lemma ReceiveResumedKeepsValid(c: Client, task: Task, result: Result, peer: Logs)
    requires Valid(c, peer) && task.ReceiveTask? && (result.GotFrame? ==> Unforged(result.frame, peer))
    ensures Valid(ReceiveResumed(c, task, result), peer)
  {
    if IsCurrent(c, task.socket, task.generation) {
      var decrypted := ReceivedPlain(c, task, result);
      if decrypted.None? {
        FailingKeepsValid(c, task.socket, task.generation, (result.Failed? || result.GotFrame?) && result.policy, peer);
        assert ReceiveResumed(c, task, result)
            == Failing(c, task.socket, task.generation, (result.Failed? || result.GotFrame?) && result.policy);
      } else {
        ConsumingKeepsValid(c, decrypted.value, result.verdict.Accept?, peer);
        var counted := Consuming(c, decrypted.value, result.verdict.Accept?);
        if result.verdict.Undecodable? {
          FailingKeepsValid(counted, task.socket, task.generation, result.policy, peer);
          assert ReceiveResumed(c, task, result) == Failing(counted, task.socket, task.generation, result.policy);
        } else {
          AnsweredKeepsValid(counted, task, result.verdict, peer);
          assert ReceiveResumed(c, task, result) == Answered(counted, task, result.verdict);
        }
      }
    }
  }

  /** The code needs no test that the tables know the current key. */
  lemma ReceiveResumedUnfolds(c: Client, task: Task, result: Result, peer: Logs)
    requires Valid(c, peer) && task.ReceiveTask? && IsCurrent(c, task.socket, task.generation)
    requires ReceivedPlain(c, task, result).Some?
    ensures c.serverTx.value in c.consumed && c.serverTx.value in c.verdicts && c.serverTx.value in c.delivered
    ensures var counted := Consuming(c, ReceivedPlain(c, task, result).value, result.verdict.Accept?);
            ReceiveResumed(c, task, result) ==
            if result.verdict.Undecodable? then Failing(counted, task.socket, task.generation, result.policy)
            else Answered(counted, task, result.verdict)
  {
    assert InboundKeyOk(c.consumed[c.serverTx.value], c.verdicts[c.serverTx.value], c.delivered[c.serverTx.value],
                        LogOf(peer, c.serverTx));
  }

  lemma StoppedKeepsValid(c: Client, peer: Logs)
    requires Valid(c, peer)
    ensures Valid(Stopped(c), peer)
  {
  }

  lemma StartupResumedKeepsValid(c: Client, task: Task, result: Result, peer: Logs)
    requires Valid(c, peer) && task.StartupTask?
    ensures Valid(StartupResumed(c, task, result), peer)
  {
    var ended := if c.startup == Some(task.generation) then c.(startup := None) else c;
    assert Valid(ended, peer);
    if Accepts(c, task.generation) {
      assert ended.startup.None?;
      ConnectedKeepsValid(ended, PrefersRemote(task.credentials), task.generation, peer);
      ConnectedKeepsValid(ended, true, task.generation, peer);
    }
  }

  lemma PairingResumedKeepsValid(c: Client, task: Task, result: Result, peer: Logs)
    requires Valid(c, peer) && task.PairingTask? && (Accepts(c, task.generation) ==> c.startup.None?)
    ensures Valid(PairingResumed(c, task, result), peer)
  {
    if result.Paired? && Accepts(c, task.generation) {
      var adopted := c.(credentials := Some(result.credentials));
      assert Valid(adopted, peer);
      StoppedKeepsValid(adopted, peer);
      ConnectedKeepsValid(if result.saved then adopted else Stopped(adopted),
                          PrefersRemote(result.credentials), task.generation, peer);
    }
  }

  lemma ReconnectResumedKeepsValid(c: Client, remote: bool, generation: nat, peer: Logs)
    requires Valid(c, peer) && (Accepts(c, generation) ==> c.startup.None?)
    ensures Valid(Connected(c, remote, generation), peer)
  {
    if Accepts(c, generation) {
      ConnectedKeepsValid(c, remote, generation, peer);
    } else {
      assert Connected(c, remote, generation) == c;
    }
  }

  lemma ResumedKeepsValid(c: Client, e: Event, peer: Logs)
    requires Valid(c, peer) && e.Resume? && Plausible(c, e, peer)
    ensures Valid(Step(c, e), peer)
  {
    if e.id in c.tasks {
      var task, rest := c.tasks[e.id], c.(tasks := c.tasks - {e.id});
      TakeTaskKeepsValid(c, e.id, peer);
      match task
      case StartupTask(_, _) => StartupResumedKeepsValid(rest, task, e.result, peer);
      case PairingTask(_) => PairingResumedKeepsValid(rest, task, e.result, peer);
      case ReconnectTask(generation, remote) =>
        var prefersRemote := if remote.Some? then remote.value else CanUseRemote(rest) && rest.retryRemoteNext;
        ReconnectResumedKeepsValid(rest, prefersRemote, generation, peer);
      case ReceiveTask(_, _, _) => ReceiveResumedKeepsValid(rest, task, e.result, peer);
      case SendTask(generation, socket) =>
        if e.result.Failed? {
          FailingKeepsValid(rest, socket, generation, e.result.policy, peer);
        }
      case _ => AuthResumedKeepsValid(rest, task, e.result, e.nonce, peer);
    }
  }

  lemma NetworkKeepsValid(c: Client, available: bool, peer: Logs)
    requires Valid(c, peer)
    ensures Valid(Step(c, NetworkChanges(available)), peer)
  {
    assert Valid(c.(networkAvailable := available), peer);
    RetriedKeepsValid(c.(networkAvailable := available), peer);
  }

  lemma StepKeepsValid(c: Client, e: Event, peer: Logs)
    requires Valid(c, peer) && Plausible(c, e, peer)
    ensures Valid(Step(c, e), peer)
  {
    match e
    case Start => StartedKeepsValid(c, peer);
    case RetryNow => RetriedKeepsValid(c, peer);
    case Stop => StoppedKeepsValid(c, peer);
    case Forget => StoppedKeepsValid(c, peer);
    case Pair => PairingBegunKeepsValid(c, peer);
    case NetworkChanges(available) =>
      NetworkKeepsValid(c, available, peer);
    case UserSends(message, encrypts) => SentKeepsValid(c, message, encrypts, peer);
    case Resume(_, _, _) => ResumedKeepsValid(c, e, peer);
  }

  lemma {:induction false} RunKeepsValid(c: Client, events: seq<Event>, peer: Logs)
    requires Valid(c, peer) && PlausibleRun(c, events, peer)
    ensures Valid(Run(c, events), peer)
    decreases |events|
  {
    if events != [] {
      StepKeepsValid(c, events[0], peer);
      RunKeepsValid(Step(c, events[0]), events[1..], peer);
    }
  }

  // --------------------------------------------------------------- main results

  lemma FreshIsValid(credentials: Option<Credentials>, peer: Logs)
    ensures Valid(Fresh(credentials), peer)
  {
  }

  predicate HasSocket(task: Task) {
    Authenticating(task) || task.ReceiveTask? || task.SendTask?
  }

  /** A continuation of another generation, of a stopped client, or of a socket
      that is no longer the current one. */
  predicate Stale(c: Client, task: Task) {
    !Accepts(c, task.generation) || (HasSocket(task) && c.socket != Some(task.socket))
  }

  /** A stale continuation changes no connection field and delivers nothing: it
      only ceases to exist, whatever it was about to do. */
  lemma StaleContinuationsDoNothing(c: Client, id: nat, result: Result, nonce: nat, peer: Logs)
    requires Valid(c, peer) && id in c.tasks && Stale(c, c.tasks[id])
    ensures Step(c, Resume(id, result, nonce)) == c.(tasks := c.tasks - {id})
  {
  }

  predicate Grew(c: Client, d: Client) {
    d.generation >= c.generation && d.nextSocket >= c.nextSocket
  }

  lemma DialGrows(c: Client, remote: bool, credentials: Credentials)
    ensures Grew(c, ScheduledReconnect(c, c.generation)) && Grew(c, Dialled(c, remote, credentials))
  {
  }

  lemma ConnectedGrows(c: Client, remote: bool, expected: nat)
    ensures Grew(c, Connected(c, remote, expected))
  {
    if Accepts(c, expected) && c.credentials.Some? {
      DialGrows(BeginGeneration(c), remote, c.credentials.value);
    }
  }

  lemma SentGrows(c: Client, message: Plain, encrypts: bool)
    ensures Grew(c, Sent(c, message, encrypts))
  {
  }

  lemma FailingGrows(c: Client, socket: nat, generation: nat, policy: bool)
    ensures Grew(c, Failing(c, socket, generation, policy))
  {
  }

  lemma AuthReplyGrows(c: Client, task: Task, result: Result)
    requires task.AuthWaiting?
    ensures Grew(c, AuthReply(c, task, result))
  {
    FailingGrows(c, task.socket, task.generation, (result.Failed? || result.GotFrame?) && result.policy);
  }

  lemma AuthResumedGrows(c: Client, task: Task, result: Result, nonce: nat)
    requires task.AuthTask? || task.AuthSending? || task.AuthWaiting?
    ensures Grew(c, AuthResumed(c, task, result, nonce))
  {
    if IsCurrent(c, task.socket, task.generation) {
      if task.AuthWaiting? {
        AuthReplyGrows(c, task, result);
      } else {
        FailingGrows(c, task.socket, task.generation, result.Failed? && result.policy);
      }
    }
  }

  lemma AnsweredGrows(c: Client, task: Task, verdict: Verdict)
    ensures Grew(c, Answered(c, task, verdict))
  {
    SentGrows(c, SNAPSHOT_REQUEST, true);
  }

  lemma ReceiveResumedGrows(c: Client, task: Task, result: Result)
    requires task.ReceiveTask?
    ensures Grew(c, ReceiveResumed(c, task, result))
  {
    if IsCurrent(c, task.socket, task.generation) {
      var decrypted := ReceivedPlain(c, task, result);
      if decrypted.None? || c.serverTx.value !in c.consumed || c.serverTx.value !in c.verdicts ||
         c.serverTx.value !in c.delivered {
        FailingGrows(c, task.socket, task.generation, (result.Failed? || result.GotFrame?) && result.policy);
      } else {
        var counted := Consuming(c, decrypted.value, result.verdict.Accept?);
        assert Grew(c, counted);
        if result.verdict.Undecodable? {
          FailingGrows(counted, task.socket, task.generation, result.policy);
          assert ReceiveResumed(c, task, result) == Failing(counted, task.socket, task.generation, result.policy);
        } else {
          AnsweredGrows(counted, task, result.verdict);
          assert ReceiveResumed(c, task, result) == Answered(counted, task, result.verdict);
        }
      }
    }
  }

  lemma StartupResumedGrows(c: Client, task: Task, result: Result)
    requires task.StartupTask?
    ensures Grew(c, StartupResumed(c, task, result))
  {
    var ended := if c.startup == Some(task.generation) then c.(startup := None) else c;
    ConnectedGrows(ended, PrefersRemote(task.credentials), task.generation);
    ConnectedGrows(ended, true, task.generation);
  }

  lemma PairingResumedGrows(c: Client, task: Task, result: Result)
    requires task.PairingTask?
    ensures Grew(c, PairingResumed(c, task, result))
  {
    if result.Paired? {
      var adopted := c.(credentials := Some(result.credentials));
      ConnectedGrows(if result.saved then adopted else Stopped(adopted),
                     PrefersRemote(result.credentials), task.generation);
    }
  }

  lemma ResumedGrows(c: Client, id: nat, result: Result, nonce: nat)
    ensures Grew(c, Resumed(c, id, result, nonce))
  {
    if id in c.tasks {
      var task, rest := c.tasks[id], c.(tasks := c.tasks - {id});
      match task
      case StartupTask(_, _) => StartupResumedGrows(rest, task, result);
      case PairingTask(_) => PairingResumedGrows(rest, task, result);
      case ReconnectTask(generation, remote) =>
        ConnectedGrows(rest, if remote.Some? then remote.value else CanUseRemote(rest) && rest.retryRemoteNext,
                       generation);
      case ReceiveTask(_, _, _) => ReceiveResumedGrows(rest, task, result);
      case SendTask(generation, socket) => FailingGrows(rest, socket, generation, result.Failed? && result.policy);
      case _ => AuthResumedGrows(rest, task, result, nonce);
    }
  }

  lemma StartedGrows(c: Client)
    ensures Grew(c, Started(c))
  {
  }

  lemma RetriedGrows(c: Client)
    ensures Grew(c, Retried(c))
  {
    StartedGrows(BeginGeneration(c.(stopped := false, startup := None)));
  }

  lemma StepGrows(c: Client, e: Event)
    ensures Grew(c, Step(c, e))
  {
    match e
    case Start => StartedGrows(c);
    case RetryNow => RetriedGrows(c);
    case NetworkChanges(available) => RetriedGrows(c.(networkAvailable := available));
    case UserSends(message, encrypts) => SentGrows(c, message, encrypts);
    case Resume(id, result, nonce) => ResumedGrows(c, id, result, nonce);
    case Stop => assert Step(c, e) == Stopped(c);
    case Forget => assert Step(c, e) == Stopped(c).(credentials := None);
    case Pair => assert Step(c, e) == PairingBegun(c);
  }

  /** Generations and socket numbers only move on. */
  lemma {:induction false} GenerationsOnlyGrow(c: Client, events: seq<Event>)
    ensures Grew(c, Run(c, events))
    decreases |events|
  {
    if events != [] {
      StepGrows(c, events[0]);
      GenerationsOnlyGrow(Step(c, events[0]), events[1..]);
    }
  }

  /** So what a newer generation made stale stays stale: however many events
      later it resumes, it does nothing. */
  lemma OvertakenContinuationsNeverAct(c: Client, events: seq<Event>, id: nat, result: Result, nonce: nat, peer: Logs)
    requires Valid(c, peer) && PlausibleRun(c, events, peer)
    requires id in Run(c, events).tasks && Run(c, events).tasks[id].generation < c.generation
    ensures Step(Run(c, events), Resume(id, result, nonce)) == Run(c, events).(tasks := Run(c, events).tasks - {id})
  {
    GenerationsOnlyGrow(c, events);
    RunKeepsValid(c, events, peer);
    StaleContinuationsDoNothing(Run(c, events), id, result, nonce, peer);
  }

  /** Over every interleaving, `connected` means a live socket, both keys, known
      credentials and a client that was not stopped. */
  lemma ConnectedMeansReady(credentials: Option<Credentials>, events: seq<Event>, peer: Logs)
    requires PlausibleRun(Fresh(credentials), events, peer)
    ensures var c := Run(Fresh(credentials), events);
            c.connected ==> c.socket.Some? && c.clientTx.Some? && c.serverTx.Some? && c.credentials.Some? && !c.stopped
  {
    FreshIsValid(credentials, peer);
    RunKeepsValid(Fresh(credentials), events, peer);
  }

  /** No two encryptions of a run share a key and a counter. */
  lemma CountersNeverRepeat(credentials: Option<Credentials>, events: seq<Event>, peer: Logs, i: nat, j: nat)
    requires PlausibleRun(Fresh(credentials), events, peer)
    requires var seals := Run(Fresh(credentials), events).seals; i < j < |seals| && seals[i].key == seals[j].key
    ensures var seals := Run(Fresh(credentials), events).seals; seals[i].counter < seals[j].counter
  {
    FreshIsValid(credentials, peer);
    RunKeepsValid(Fresh(credentials), events, peer);
  }

  /** So no (key, cipher nonce) pair is used twice while counters fit 64 bits. */
  lemma NoncesNeverRepeat(credentials: Option<Credentials>, events: seq<Event>, peer: Logs, i: nat, j: nat)
    requires PlausibleRun(Fresh(credentials), events, peer)
    requires var seals := Run(Fresh(credentials), events).seals;
             && i < j < |seals|
             && seals[i].counter < HChaCha20.Pow256(HChaCha20.COUNTER_BYTES)
             && seals[j].counter < HChaCha20.Pow256(HChaCha20.COUNTER_BYTES)
    ensures var seals := Run(Fresh(credentials), events).seals;
            (seals[i].key, HChaCha20.CipherNonce(seals[i].counter)) !=
            (seals[j].key, HChaCha20.CipherNonce(seals[j].counter))
  {
    var seals := Run(Fresh(credentials), events).seals;
    if seals[i].key == seals[j].key {
      CountersNeverRepeat(credentials, events, peer, i, j);
      HChaCha20.CipherNoncesDiffer(seals[i].counter, seals[j].counter);
    }
  }

  /** No accepted message follows a refused one. */
  ghost predicate AcceptedFirst(verdicts: seq<bool>) {
    forall i, j :: 0 <= i < j < |verdicts| && verdicts[j] ==> verdicts[i]
  }

  ghost predicate Distinct<T>(messages: seq<T>) {
    forall i, j :: 0 <= i < j < |messages| ==> messages[i] != messages[j]
  }

  lemma {:induction false} SelectLength<T>(messages: seq<T>, verdicts: seq<bool>)
    requires |messages| == |verdicts|
    ensures |Select(messages, verdicts)| <= |messages|
    ensures |Select(messages, verdicts)| == |messages| <==> forall i :: 0 <= i < |verdicts| ==> verdicts[i]
    ensures |Select(messages, verdicts)| == |messages| ==> Select(messages, verdicts) == messages
  {
    if messages != [] {
      var n := |messages| - 1;
      SelectLength(messages[..n], verdicts[..n]);
      assert messages == messages[..n] + [messages[n]];
      assert forall i :: 0 <= i < n ==> verdicts[i] == verdicts[..n][i];
    }
  }

  lemma {:induction false} SelectPrefix<T>(messages: seq<T>, verdicts: seq<bool>)
    requires |messages| == |verdicts| && AcceptedFirst(verdicts)
    ensures Select(messages, verdicts) <= messages
  {
    SelectLength(messages, verdicts);
    if messages != [] {
      var n := |messages| - 1;
      if !verdicts[n] {
        SelectPrefix(messages[..n], verdicts[..n]);
      }
    }
  }

  lemma {:induction false} PrefixIsAcceptedFirst<T>(messages: seq<T>, verdicts: seq<bool>)
    requires |messages| == |verdicts| && Distinct(messages) && Select(messages, verdicts) <= messages
    ensures AcceptedFirst(verdicts)
  {
    if messages != [] {
      var n := |messages| - 1;
      var before, init := messages[..n], Select(messages[..n], verdicts[..n]);
      SelectLength(before, verdicts[..n]);
      if verdicts[n] {
        assert messages[|init|] == Select(messages, verdicts)[|init|];
        assert forall i :: 0 <= i < n ==> verdicts[i] == verdicts[..n][i];
      } else {
        PrefixIsAcceptedFirst(before, verdicts[..n]);
        assert forall i :: 0 <= i < n ==> verdicts[i] == verdicts[..n][i];
      }
    }
  }

  /** When messages can be told apart, the accepted ones are a prefix if and only
      if no accepted one follows a refused one. */
  lemma SelectIsPrefixExactlyWhen<T>(messages: seq<T>, verdicts: seq<bool>)
    requires |messages| == |verdicts| && Distinct(messages)
    ensures Select(messages, verdicts) <= messages <==> AcceptedFirst(verdicts)
  {
    if AcceptedFirst(verdicts) {
      SelectPrefix(messages, verdicts);
    } else if Select(messages, verdicts) <= messages {
      PrefixIsAcceptedFirst(messages, verdicts);
    }
  }

  function Indices(n: nat): seq<nat> {
    seq(n, i => i)
  }

  lemma {:induction false} SelectAt<T>(messages: seq<T>, verdicts: seq<bool>, n: nat)
    requires |messages| == |verdicts| == n
    ensures var places := Select(Indices(n), verdicts);
            && |places| == |Select(messages, verdicts)|
            && forall k ::
                 0 <= k < |places| ==> 0 <= places[k] < n && Select(messages, verdicts)[k] == messages[places[k]]
  {
    if n > 0 {
      SelectAt(messages[..n - 1], verdicts[..n - 1], n - 1);
      assert Indices(n)[..n - 1] == Indices(n - 1);
    }
  }

  /** Over any network, what is decrypted on one connection is a prefix of what
      the Bridge sealed on it, and `onMessage` gets exactly the accepted part of
      that prefix, in order: itself a prefix while no accepted message follows a refused one. */
  lemma MessagesAreAPrefix(credentials: Option<Credentials>, events: seq<Event>, peer: Logs, key: Key)
    requires PlausibleRun(Fresh(credentials), events, peer) && key in Run(Fresh(credentials), events).consumed
    ensures var c := Run(Fresh(credentials), events);
            && key in c.verdicts && key in c.delivered && |c.verdicts[key]| == |c.consumed[key]|
            && c.consumed[key] <= LogOf(peer, Some(key)) && c.delivered[key] == Select(c.consumed[key], c.verdicts[key])
            && (AcceptedFirst(c.verdicts[key]) ==> c.delivered[key] <= LogOf(peer, Some(key)))
  {
    FreshIsValid(credentials, peer);
    RunKeepsValid(Fresh(credentials), events, peer);
    var c := Run(Fresh(credentials), events);
    if AcceptedFirst(c.verdicts[key]) {
      SelectPrefix(c.consumed[key], c.verdicts[key]);
    }
  }

  /** Exactly when `onMessage` gets a prefix of what was decrypted: the places of
      what it got are 0, 1, ... without a gap if and only if no accepted message
      follows a refused one. Of messages that all differ this is seen in the
      messages themselves, against everything the Bridge sealed. */
  lemma MessagesArePrefixExactlyWhen(credentials: Option<Credentials>, events: seq<Event>, peer: Logs, key: Key)
    requires PlausibleRun(Fresh(credentials), events, peer) && key in Run(Fresh(credentials), events).consumed
    ensures var c := Run(Fresh(credentials), events);
            && key in c.verdicts && key in c.delivered && |c.verdicts[key]| == |c.consumed[key]|
            && var n := |c.verdicts[key]|; var places := Select(Indices(n), c.verdicts[key]);
               && |places| == |c.delivered[key]|
               && (forall k ::
                     0 <= k < |places| ==> 0 <= places[k] < n && c.delivered[key][k] == c.consumed[key][places[k]])
               && (places <= Indices(n) <==> AcceptedFirst(c.verdicts[key]))
               && (Distinct(c.consumed[key]) ==>
                     (c.delivered[key] <= LogOf(peer, Some(key)) <==> AcceptedFirst(c.verdicts[key])))
  {
    MessagesAreAPrefix(credentials, events, peer, key);
    var c := Run(Fresh(credentials), events);
    var n := |c.verdicts[key]|;
    SelectAt(c.consumed[key], c.verdicts[key], n);
    assert Distinct(Indices(n));
    SelectIsPrefixExactlyWhen(Indices(n), c.verdicts[key]);
    SelectLength(c.consumed[key], c.verdicts[key]);
    if Distinct(c.consumed[key]) {
      SelectIsPrefixExactlyWhen(c.consumed[key], c.verdicts[key]);
    }
  }

  ghost predicate Leads(start: Client, events: seq<Event>, c: Client, peer: Logs) {
    PlausibleRun(start, events, peer) && Run(start, events) == c
  }

  lemma {:induction false} Extend(start: Client, events: seq<Event>, c: Client, peer: Logs, e: Event)
    requires Leads(start, events, c, peer) && Plausible(c, e, peer)
    ensures Leads(start, events + [e], Step(c, e), peer)
    decreases |events|
  {
    if events == [] {
      assert [] + [e] == [e];
    } else {
      assert (events + [e])[0] == events[0] && (events + [e])[1..] == events[1..] + [e];
      Extend(Step(start, events[0]), events[1..], c, peer, e);
    }
  }

  const SAMPLE := Credentials("d", Some(1), false, false, false, true, true)
  const SAMPLE_KEY := Derived(1, 7, 9, ToClient)
  const SAMPLE_LOG := [Plain("first", true), Plain("second", true), Plain("third", true)]
  const SAMPLE_PEER: Logs := map[SAMPLE_KEY := SAMPLE_LOG]

  /** The sample's receive loop waits as continuation `id`. */
  predicate Listening(c: Client, id: nat) {
    && id in c.tasks && c.socket.Some? && c.tasks[id] == ReceiveTask(c.generation, c.socket.value, SAMPLE)
    && !c.stopped && c.connected && c.credentials == Some(SAMPLE) && c.clientTx.Some? && c.serverTx == Some(SAMPLE_KEY)
    && SAMPLE_KEY in c.consumed && SAMPLE_KEY in c.verdicts && SAMPLE_KEY in c.delivered
    && c.receiveCounter == |c.consumed[SAMPLE_KEY]| && c.nonces == {7}
  }

  const SAMPLE_DIALLED := Fresh(Some(SAMPLE)).(socket := Some(0), generation := 2, retryRemoteNext := true,
                            tasks := map[1 := AuthTask(2, 0, SAMPLE)], nextTask := 2, nextSocket := 1)

  lemma SampleDials() returns (events: seq<Event>)
    ensures Leads(Fresh(Some(SAMPLE)), events, SAMPLE_DIALLED, SAMPLE_PEER)
  {
    var c0, e := Fresh(Some(SAMPLE)), Resume(0, Succeeded, 8);
    var c1 := Step(c0, Start);
    assert c1 == c0.(generation := 1, startup := Some(1), tasks := map[0 := StartupTask(1, SAMPLE)], nextTask := 1);
    assert Step(c1, e) == SAMPLE_DIALLED;
    Extend(c0, [], c0, SAMPLE_PEER, Start);
    Extend(c0, [] + [Start], c1, SAMPLE_PEER, e);
    events := [] + [Start] + [e];
  }

  const SAMPLE_WAITING := SAMPLE_DIALLED.(nonces := {7}, tasks := map[3 := AuthWaiting(2, 0, SAMPLE, 7)], nextTask := 4)

  lemma SampleAsks() returns (events: seq<Event>)
    ensures Leads(Fresh(Some(SAMPLE)), events, SAMPLE_WAITING, SAMPLE_PEER)
  {
    var dialled := SampleDials();
    var e1, e2 := Resume(1, Succeeded, 7), Resume(2, Succeeded, 8);
    var c := Step(SAMPLE_DIALLED, e1);
    assert c == SAMPLE_DIALLED.(nonces := {7}, tasks := map[2 := AuthSending(2, 0, SAMPLE, 7)], nextTask := 3);
    assert Step(c, e2) == SAMPLE_WAITING;
    Extend(Fresh(Some(SAMPLE)), dialled, SAMPLE_DIALLED, SAMPLE_PEER, e1);
    Extend(Fresh(Some(SAMPLE)), dialled + [e1], c, SAMPLE_PEER, e2);
    events := dialled + [e1] + [e2];
  }

  lemma SampleConnects() returns (events: seq<Event>, c: Client, id: nat)
    ensures Leads(Fresh(Some(SAMPLE)), events, c, SAMPLE_PEER) && Listening(c, id)
    ensures c.consumed[SAMPLE_KEY] == [] && c.verdicts[SAMPLE_KEY] == [] && c.delivered[SAMPLE_KEY] == []
  {
    var asked := SampleAsks();
    var e := Resume(3, GotFrame(AuthOk(9, ServerProof(1, 7, 9)), Accept(false), false), 8);
    Extend(Fresh(Some(SAMPLE)), asked, SAMPLE_WAITING, SAMPLE_PEER, e);
    events, c, id := asked + [e], Step(SAMPLE_WAITING, e), 4;
    assert c.tasks == map[4 := ReceiveTask(2, 0, SAMPLE)];
  }

  /** What the sample knows of its messages. */
  predicate SameBooks(c: Client, d: Client) {
    d.consumed == c.consumed && d.verdicts == c.verdicts && d.delivered == c.delivered
  }

  lemma SampleListensAgain(c: Client, task: Task, verdict: Verdict)
    requires Listening(c.(tasks := c.tasks[c.nextTask := task]), c.nextTask) && !verdict.Undecodable?
    ensures var d := Answered(c, task, verdict); d.nextTask > 0 && Listening(d, d.nextTask - 1) && SameBooks(c, d)
  {
  }

  function SampleFrame(counter: nat): Frame
    requires counter < |SAMPLE_LOG|
  {
    Secure(counter, Sealed(SAMPLE_KEY, counter, AAD_PREFIX + "d", SAMPLE_LOG[counter]))
  }

  lemma SampleOpens(c: Client, id: nat, verdict: Verdict)
    requires Listening(c, id) && c.receiveCounter < |SAMPLE_LOG| && !verdict.Undecodable?
    ensures var counted := Consuming(c.(tasks := c.tasks - {id}), SAMPLE_LOG[c.receiveCounter], verdict.Accept?);
            Step(c, Resume(id, GotFrame(SampleFrame(c.receiveCounter), verdict, false), 8)) ==
            Answered(counted, c.tasks[id], verdict)
  {
    var result := GotFrame(SampleFrame(c.receiveCounter), verdict, false);
    assert ReceivedPlain(c, c.tasks[id], result) == Some(SAMPLE_LOG[c.receiveCounter]);
  }

  /** The next message in order arrives and the replica judges it. */
  lemma SampleHears(events: seq<Event>, c: Client, id: nat, verdict: Verdict)
    returns (longer: seq<Event>, d: Client, next: nat)
    requires Leads(Fresh(Some(SAMPLE)), events, c, SAMPLE_PEER) && Listening(c, id)
    requires c.receiveCounter < |SAMPLE_LOG| && !verdict.Undecodable?
    ensures Leads(Fresh(Some(SAMPLE)), longer, d, SAMPLE_PEER) && Listening(d, next)
    ensures var plain := SAMPLE_LOG[c.receiveCounter];
            && d.consumed[SAMPLE_KEY] == c.consumed[SAMPLE_KEY] + [plain]
            && d.verdicts[SAMPLE_KEY] == c.verdicts[SAMPLE_KEY] + [verdict.Accept?]
            && d.delivered[SAMPLE_KEY] == c.delivered[SAMPLE_KEY] + if verdict.Accept? then [plain] else []
  {
    var e := Resume(id, GotFrame(SampleFrame(c.receiveCounter), verdict, false), 8);
    Extend(Fresh(Some(SAMPLE)), events, c, SAMPLE_PEER, e);
    longer, d := events + [e], Step(c, e);
    var task, rest := c.tasks[id], c.(tasks := c.tasks - {id});
    var counted := Consuming(rest, SAMPLE_LOG[c.receiveCounter], verdict.Accept?);
    SampleOpens(c, id, verdict);
    SampleListensAgain(counted, task, verdict);
    next := d.nextTask - 1;
  }

  /** A message that needs a resync leaves a gap: the first and the third of three
      reach `onMessage`, and they are not a prefix of what the Bridge sealed. */
  lemma RefusedMessageLeavesAGap()
    ensures exists events :: var c := Run(Fresh(Some(SAMPLE)), events);
              && PlausibleRun(Fresh(Some(SAMPLE)), events, SAMPLE_PEER)
              && SAMPLE_KEY in c.verdicts && c.verdicts[SAMPLE_KEY] == [true, false, true]
              && SAMPLE_KEY in c.delivered && c.delivered[SAMPLE_KEY] == [SAMPLE_LOG[0], SAMPLE_LOG[2]]
              && !(c.delivered[SAMPLE_KEY] <= LogOf(SAMPLE_PEER, Some(SAMPLE_KEY)))
  {
    var events, c, id := SampleConnects();
    events, c, id := SampleHears(events, c, id, Accept(false));
    events, c, id := SampleHears(events, c, id, Resync);
    events, c, id := SampleHears(events, c, id, Accept(false));
    assert "second"[0] != "third"[0];
  }

  /** End to end: whatever the network does, the commands a Bridge connection
      hands over are a prefix of those the phone sent on that connection, in the
      order it sent them. */
  lemma CommandsArriveInOrder(credentials: Option<Credentials>, events: seq<Event>, peer: Logs,
                              server: seq<ServerEvent>)
    requires PlausibleRun(Fresh(credentials), events, peer)
    requires NetworkIsIdeal(server, Run(Fresh(credentials), events).logs)
    ensures var s := ServerRun(FRESH_SERVER, server);
            s.delivered != [] ==>
              s.clientTx.Some? && s.delivered <= SealedUnder(Run(Fresh(credentials), events).seals, s.clientTx.value)
  {
    FreshIsValid(credentials, peer);
    RunKeepsValid(Fresh(credentials), events, peer);
    CommandsAreAPrefix(server, Run(Fresh(credentials), events).logs);
  }

  /** Each frame sealed under the server's key that reaches the client is one the
      server sent. */
  ghost predicate Relays(events: seq<Event>, s: Server) {
    forall e :: e in events && e.Resume? && e.result.GotFrame? ==> IsRelayed(e.result.frame, s)
  }

  ghost predicate IsRelayed(frame: Frame, s: Server) {
    frame.Secure? && frame.cipher.Sealed? && Some(frame.cipher.key) == s.serverTx ==>
      exists i :: 0 <= i < |s.sent| && s.sent[i].Secure? && s.sent[i].cipher == frame.cipher
  }

  /** What the server sealed then stands for the log of its key. */
  lemma {:induction false} RelayedIsPlausible(c: Client, events: seq<Event>, peer: Logs, s: Server)
    requires PlausibleRun(c, events, peer) && Relays(events, s) && SealsOk(s) && s.serverTx.Some?
    ensures PlausibleRun(c, events, peer[s.serverTx.value := SealedOn(s.sent)])
    decreases |events|
  {
    if events != [] {
      var e := events[0];
      assert e in events && forall x :: x in events[1..] ==> x in events;
      if e.Resume? && e.result.GotFrame? {
        assert IsRelayed(e.result.frame, s);
      }
      RelayedIsPlausible(Step(c, e), events[1..], peer, s);
    }
  }

  /** End to end the other way: what the phone decrypts on a connection is a prefix
      of what that Bridge socket sealed, and `onMessage` gets its accepted part. */
  lemma MessagesArriveInOrder(credentials: Option<Credentials>, events: seq<Event>, peer: Logs,
                              server: seq<ServerEvent>)
    requires PlausibleRun(Fresh(credentials), events, peer) && Relays(events, ServerRun(FRESH_SERVER, server))
    ensures var c, s := Run(Fresh(credentials), events), ServerRun(FRESH_SERVER, server);
            s.serverTx.Some? && s.serverTx.value in c.consumed ==>
              var key := s.serverTx.value;
              && key in c.verdicts && key in c.delivered && |c.verdicts[key]| == |c.consumed[key]|
              && c.consumed[key] <= SealedOn(s.sent) && c.delivered[key] == Select(c.consumed[key], c.verdicts[key])
              && (AcceptedFirst(c.verdicts[key]) ==> c.delivered[key] <= SealedOn(s.sent))
  {
    var c, s := Run(Fresh(credentials), events), ServerRun(FRESH_SERVER, server);
    ServerRunKeepsSeals(FRESH_SERVER, server);
    if s.serverTx.Some? && s.serverTx.value in c.consumed {
      RelayedIsPlausible(Fresh(credentials), events, peer, s);
      MessagesAreAPrefix(credentials, events, peer[s.serverTx.value := SealedOn(s.sent)], s.serverTx.value);
    }
  }

  // ----------------------------------------------------------------- the client

  /** One host's client. Suspended continuations are resumed by the scheduler, so
      they are kept for the proofs only; each method is one uninterrupted step. */
  class HostBridgeClient {
    var socket: Option<nat>
    var connectionGeneration: nat
    var connected: bool
    var credentials: Option<Credentials>
    var clientTX: Option<Key>
    var serverTX: Option<Key>
    var sendCounter: nat
    var receiveCounter: nat
    var intentionallyStopped: bool
    var startupGeneration: Option<nat>
    var networkAvailable: bool
    var retryRemoteNext: bool
    var nextSocket: nat
    ghost var record: Client

    /** The fields, beside what `record` remembers of tasks and messages. */
    ghost function State(): Client
      reads this
    {
      record.(socket := socket, generation := connectionGeneration, connected := connected, credentials := credentials,
      clientTx := clientTX, serverTx := serverTX, sendCounter := sendCounter, receiveCounter := receiveCounter,
      stopped := intentionallyStopped, startup := startupGeneration, networkAvailable := networkAvailable,
      retryRemoteNext := retryRemoteNext, nextSocket := nextSocket)
    }

    constructor (credentials: Option<Credentials>)
      ensures State() == Fresh(credentials)
    {
      this.credentials := credentials;
      socket, connectionGeneration, connected, clientTX, serverTX := None, 0, false, None, None;
      sendCounter, receiveCounter, intentionallyStopped, startupGeneration := 0, 0, false, None;
      networkAvailable, retryRemoteNext, nextSocket := true, false, 0;
      record := Fresh(credentials);
    }

    ghost method Await(task: Task)
      modifies this`record
      ensures record == Suspend(old(record), task)
    {
      record := record.(tasks := record.tasks[record.nextTask := task], nextTask := record.nextTask + 1);
    }

    method BeginConnectionGeneration() returns (generation: nat)
      modifies this
      ensures State() == BeginGeneration(old(State())) && generation == connectionGeneration && record == old(record)
    {
      connectionGeneration := connectionGeneration + 1;
      socket, connected, clientTX, serverTX, sendCounter, receiveCounter := None, false, None, None, 0, 0;
      generation := connectionGeneration;
    }

    predicate AcceptsNow(generation: nat)
      reads this
    {
      !intentionallyStopped && generation == connectionGeneration
    }

    predicate IsCurrentNow(candidate: nat, generation: nat)
      reads this
    {
      AcceptsNow(generation) && socket == Some(candidate)
    }

    method ScheduleReconnect(generation: nat)
      modifies this
      ensures State() == ScheduledReconnect(old(State()), generation)
    {
      if !networkAvailable || intentionallyStopped {
        return;
      }
      if AcceptsNow(generation) {
        Await(ReconnectTask(generation, None));
      }
    }

    method Connect(remote: bool, expected: nat)
      modifies this
      ensures State() == Connected(old(State()), remote, expected)
    {
      if !AcceptsNow(expected) || credentials.None? {
        return;
      }
      var generation := BeginConnectionGeneration();
      if remote && !credentials.value.hasRelayURL {
        ScheduleReconnect(generation);
        return;
      }
      retryRemoteNext := !remote;
      if !URLBuilds(credentials.value, remote) {
        return;
      }
      socket := Some(nextSocket);
      nextSocket := nextSocket + 1;
      Await(AuthTask(generation, socket.value, credentials.value));
    }

    method Fail(failedSocket: nat, generation: nat, policyViolation: bool)
      modifies this
      ensures State() == Failing(old(State()), failedSocket, generation, policyViolation)
    {
      if !IsCurrentNow(failedSocket, generation) {
        return;
      }
      connected := false;
      if policyViolation {
        connectionGeneration := connectionGeneration + 1;
        socket, credentials, intentionallyStopped := None, None, true;
        return;
      }
      socket := None;
      if credentials.None? {
        return;
      }
      if retryRemoteNext && credentials.value.hasRelayURL && credentials.value.hasRelayToken {
        Await(ReconnectTask(generation, Some(true)));
        return;
      }
      ScheduleReconnect(generation);
    }

    method Start()
      modifies this
      ensures State() == Started(old(State()))
    {
      intentionallyStopped := false;
      if socket.Some? || connected || startupGeneration.Some? || credentials.None? {
        return;
      }
      var generation := BeginConnectionGeneration();
      startupGeneration := Some(generation);
      Await(StartupTask(generation, credentials.value));
    }

    method RetryNow()
      modifies this
      ensures State() == Retried(old(State()))
    {
      if connected || credentials.None? {
        return;
      }
      intentionallyStopped, startupGeneration := false, None;
      var generation := BeginConnectionGeneration();
      Start();
    }

    method Stop()
      modifies this
      ensures State() == Stopped(old(State()))
    {
      intentionallyStopped, startupGeneration := true, None;
      var generation := BeginConnectionGeneration();
    }

    method ForgetDevice()
      modifies this
      ensures State() == Step(old(State()), Forget)
    {
      Stop();
      credentials := None;
    }

    method Pair()
      modifies this
      ensures State() == PairingBegun(old(State()))
    {
      intentionallyStopped, startupGeneration := false, None;
      var generation := BeginConnectionGeneration();
      Await(PairingTask(generation));
    }

    method NetworkChanged(available: bool)
      modifies this
      ensures State() == Step(old(State()), NetworkChanges(available))
    {
      var wasDown := !networkAvailable;
      networkAvailable := available;
      if available && wasDown && !connected && !intentionallyStopped && credentials.Some? {
        RetryNow();
      }
    }

    /** Seals under the next counter and hands the frame to the socket. */
    method Transmit(message: Plain)
      requires connected && socket.Some? && clientTX.Some?
      modifies this`record, this`sendCounter
      ensures State() == Suspend(Sealing(old(State()), message), SendTask(connectionGeneration, socket.value))
    {
      ghost var key := clientTX.value;
      ghost var log := if key in record.logs then record.logs[key] else [];
      record := record.(seals := record.seals + [Seal(key, sendCounter, message)],
      logs := record.logs[key := log + [message]]);
      sendCounter := sendCounter + 1;
      Await(SendTask(connectionGeneration, socket.value));
    }

    /** Sealing threw: the counter is spent all the same. */
    method Unsealed()
      requires connected && socket.Some?
      modifies this
      ensures State() == SealingFailed(old(State()))
    {
      ghost var before := State();
      sendCounter := sendCounter + 1;
      assert State() == before.(sendCounter := before.sendCounter + 1);
      Fail(socket.value, connectionGeneration, false);
    }

    method Send(message: Plain, encrypts: bool) returns (ok: bool)
      modifies this
      ensures State() == Sent(old(State()), message, encrypts)
      ensures ok <==> encrypts && old(connected && socket.Some? && clientTX.Some? && credentials.Some?)
    {
      if !connected || socket.None? || clientTX.None? || credentials.None? {
        return false;
      }
      ok := encrypts;
      if encrypts {
        Transmit(message);
      } else {
        Unsealed();
      }
    }

    method FinishStartup(task: Task, result: Result)
      requires task.StartupTask?
      modifies this
      ensures State() == StartupResumed(old(State()), task, result)
    {
      if startupGeneration == Some(task.generation) {
        startupGeneration := None;
      }
      if !AcceptsNow(task.generation) {
        return;
      }
      if result.Succeeded? {
        Connect(PrefersRemote(task.credentials), task.generation);
      } else if task.credentials.hasRelayURL && task.credentials.hasRelayToken {
        Connect(true, task.generation);
      }
    }

    method FinishPairing(task: Task, result: Result)
      requires task.PairingTask?
      modifies this
      ensures State() == PairingResumed(old(State()), task, result)
    {
      if !result.Paired? || !AcceptsNow(task.generation) {
        return;
      }
      credentials := Some(result.credentials);
      if !result.saved {
        Stop();
      }
      Connect(PrefersRemote(result.credentials), task.generation);
    }

    method Authenticate(task: Task, result: Result, clientNonce: nat)
      requires task.AuthTask? || task.AuthSending? || task.AuthWaiting?
      modifies this
      ensures State() == AuthResumed(old(State()), task, result, clientNonce)
    {
      if !IsCurrentNow(task.socket, task.generation) {
        return;
      }
      if task.AuthTask? {
        if task.credentials.deviceKey.None? {
          Fail(task.socket, task.generation, result.Failed? && result.policy);
        } else {
          record := record.(nonces := record.nonces + {clientNonce});
          Await(AuthSending(task.generation, task.socket, task.credentials, clientNonce));
        }
      } else if task.AuthSending? {
        if result.Failed? {
          Fail(task.socket, task.generation, result.policy);
        } else {
          Await(AuthWaiting(task.generation, task.socket, task.credentials, task.clientNonce));
        }
      } else {
        FinishHandshake(task, result);
      }
    }

    method FinishHandshake(task: Task, result: Result)
      requires task.AuthWaiting?
      modifies this
      ensures State() == AuthReply(old(State()), task, result)
    {
      if !ReplyProven(task, result) {
        Fail(task.socket, task.generation, (result.Failed? || result.GotFrame?) && result.policy);
      } else {
        var deviceKey, serverNonce := task.credentials.deviceKey.value, result.frame.serverNonce;
        Install(Derived(deviceKey, task.clientNonce, serverNonce, ToServer),
                Derived(deviceKey, task.clientNonce, serverNonce, ToClient));
        Await(ReceiveTask(task.generation, task.socket, task.credentials));
      }
    }

    method Install(client: Key, server: Key)
      modifies this
      ensures State() == Installed(old(State()), client, server)
    {
      clientTX, serverTX, connected := Some(client), Some(server), true;
      record := record.(logs := record.logs[client := []], consumed := record.consumed[server := []],
      verdicts := record.verdicts[server := []], delivered := record.delivered[server := []]);
    }

    method AskForSnapshot()
      modifies this
      ensures State() == Sent(old(State()), SNAPSHOT_REQUEST, true)
    {
      var _ := Send(SNAPSHOT_REQUEST, true);
    }

    /** What follows the counter's move: the replica's verdict decides. */
    method Judge(task: Task, plain: Plain, verdict: Verdict, policy: bool) returns (message: Option<Plain>)
      requires task.ReceiveTask?
      modifies this
      ensures State() == if verdict.Undecodable? then Failing(old(State()), task.socket, task.generation, policy)
                         else Answered(old(State()), task, verdict)
      ensures message == if verdict.Accept? then Some(plain) else None
    {
      message := None;
      match verdict {
        case Undecodable =>
          Fail(task.socket, task.generation, policy);
          return;
        case Resync =>
          AskForSnapshot();
        case Accept(negotiateDelta) =>
          message := Some(plain);
          if negotiateDelta {
            AskForSnapshot();
          }
      }
      Await(task);
    }

    /** The frame checks of one turn of the receive loop. */
    method Open(task: Task, result: Result) returns (plain: Option<Plain>)
      requires task.ReceiveTask?
      ensures plain == ReceivedPlain(State(), task, result)
    {
      if !result.GotFrame? || !result.frame.Secure? || result.frame.counter != receiveCounter || serverTX.None? {
        return None;
      }
      plain := Decrypt(serverTX.value, result.frame.counter, result.frame.cipher,
                       AAD_PREFIX + task.credentials.deviceId);
    }

    ghost method Note(key: Key, plain: Plain, accepted: bool)
      requires key in record.consumed && key in record.verdicts && key in record.delivered
      modifies this`record
      ensures record == old(record).(
                consumed := old(record).consumed[key := old(record).consumed[key] + [plain]],
                verdicts := old(record).verdicts[key := old(record).verdicts[key] + [accepted]],
                delivered := if accepted then old(record).delivered[key := old(record).delivered[key] + [plain]]
                             else old(record).delivered)
    {
      var given := if accepted then record.delivered[key := record.delivered[key] + [plain]] else record.delivered;
      record := record.(consumed := record.consumed[key := record.consumed[key] + [plain]],
      verdicts := record.verdicts[key := record.verdicts[key] + [accepted]], delivered := given);
    }

    method CountMessage(plain: Plain, accepted: bool)
      requires var c := State();
               c.serverTx.Some? && c.serverTx.value in c.consumed && c.serverTx.value in c.verdicts &&
               c.serverTx.value in c.delivered
      modifies this
      ensures State() == Consuming(old(State()), plain, accepted)
    {
      Note(serverTX.value, plain, accepted);
      receiveCounter := receiveCounter + 1;
    }

    /** One turn of the receive loop; `message` is what `onMessage` is given. */
    method ReceiveTurn(task: Task, result: Result, ghost peer: Logs) returns (message: Option<Plain>)
      requires task.ReceiveTask? && Valid(State(), peer)
      modifies this
      ensures State() == ReceiveResumed(old(State()), task, result)
      ensures message ==
              if old(IsCurrent(State(), task.socket, task.generation)) && result.GotFrame? && result.verdict.Accept?
                         then ReceivedPlain(old(State()), task, result) else None
    {
      ghost var before := State();
      message := None;
      if IsCurrentNow(task.socket, task.generation) {
        var decrypted := Open(task, result);
        if decrypted.None? {
          Fail(task.socket, task.generation, (result.Failed? || result.GotFrame?) && result.policy);
        } else {
          ReceiveResumedUnfolds(before, task, result, peer);
          CountMessage(decrypted.value, result.verdict.Accept?);
          message := Judge(task, decrypted.value, result.verdict, result.policy);
        }
      }
    }
  }
}
