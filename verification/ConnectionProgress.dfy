/** What the phone's end of the channel gets done: a client that is paired and online
    stays on its way to a connection, unless one of a few events leaves it alone. */
module ConnectionProgress {
  import opened Keys
  import opened SecureChannel
  import opened ConnectionLease

  /** A continuation that will act although there is no socket yet. */
  predicate Acts(c: Client, task: Task) {
    Accepts(c, task.generation) && (task.StartupTask? || task.PairingTask? || task.ReconnectTask?)
  }

  /** The continuation that serves the socket: its handshake, then its receive loop. */
  predicate Serves(c: Client, task: Task) {
    && Accepts(c, task.generation) && (if c.connected then task.ReceiveTask? else Authenticating(task))
    && c.socket == Some(task.socket)
  }

  predicate Paired(c: Client) {
    c.credentials.Some? && !c.stopped && c.networkAvailable
  }

  ghost predicate ActsOn(c: Client) {
    exists id :: id in c.tasks && Acts(c, c.tasks[id])
  }

  ghost predicate Served(c: Client) {
    exists id :: id in c.tasks && Serves(c, c.tasks[id])
  }

  /** The startup marker stands for a startup that is still running. */
  ghost predicate MarkerOk(c: Client) {
    c.startup.Some? ==> exists id :: id in c.tasks && c.tasks[id].StartupTask? && c.tasks[id].generation == c.generation
  }

  /** A socket is being served; without one, a client that is paired, online and not
      stopped has a continuation that will act. */
  ghost predicate Tended(c: Client) {
    MarkerOk(c) && if c.socket.Some? then Served(c) else Paired(c) ==> ActsOn(c)
  }

  // ---------------------------------------------------------------- one operation

  lemma SuspendedActs(c: Client, task: Task)
    requires Acts(c, task)
    ensures ActsOn(Suspend(c, task)) && Suspend(c, task).socket == c.socket
  {
    assert Suspend(c, task).tasks[c.nextTask] == task;
  }

  lemma SuspendedServes(c: Client, task: Task)
    requires Serves(c, task)
    ensures Served(Suspend(c, task))
  {
    assert Suspend(c, task).tasks[c.nextTask] == task;
  }

  /** More continuations do no harm. */
  lemma SuspendKeepsTended(c: Client, task: Task)
    requires LeaseOk(c) && Tended(c)
    ensures Tended(Suspend(c, task))
  {
    assert c.nextTask !in c.tasks;
    var d := Suspend(c, task);
    assert forall id :: id in c.tasks ==> id in d.tasks && d.tasks[id] == c.tasks[id];
  }

  lemma NoSocketNoMarker(c: Client)
    requires c.socket.None? && c.startup.None? && (Paired(c) ==> ActsOn(c))
    ensures Tended(c)
  {
  }

  /** After a failure of the current socket: forgotten for a policy violation, else
      on the way back if the network or a relay allows it. */
  lemma FailingTends(c: Client, socket: nat, generation: nat, policy: bool)
    requires c.startup.None? && IsCurrent(c, socket, generation)
    ensures Tended(Failing(c, socket, generation, policy))
  {
    var dropped := c.(connected := false, socket := None);
    if policy {
      NoSocketNoMarker(Failing(c, socket, generation, policy));
    } else if dropped.retryRemoteNext && CanUseRemote(dropped) {
      SuspendedActs(dropped, ReconnectTask(generation, Some(true)));
      NoSocketNoMarker(Failing(c, socket, generation, policy));
    } else {
      if c.networkAvailable {
        SuspendedActs(dropped, ReconnectTask(generation, None));
      }
      NoSocketNoMarker(Failing(c, socket, generation, policy));
    }
  }

  lemma StartedTends(c: Client)
    requires LeaseOk(c) && MarkerOk(c) && (c.socket.Some? ==> Served(c))
    ensures Tended(Started(c))
  {
    var awake := c.(stopped := false);
    if c.socket.Some? || c.connected || c.startup.Some? || c.credentials.None? {
      if c.socket.Some? {
        assert awake == c;
      } else if c.startup.Some? {
        var id :| id in c.tasks && c.tasks[id].StartupTask? && c.tasks[id].generation == c.generation;
        assert Acts(awake, c.tasks[id]);
      }
    } else {
      var begun := BeginGeneration(awake);
      var task := StartupTask(begun.generation, c.credentials.value);
      SuspendedActs(begun.(startup := Some(begun.generation)), task);
      assert Started(c).tasks[c.nextTask] == task;
    }
  }

  lemma RetriedTends(c: Client)
    requires LeaseOk(c) && Tended(c)
    ensures Tended(Retried(c))
  {
    if !c.connected && c.credentials.Some? {
      StartedTends(BeginGeneration(c.(stopped := false, startup := None)));
    }
  }

  lemma PairingTends(c: Client)
    ensures Tended(PairingBegun(c))
  {
    var begun := BeginGeneration(c.(stopped := false, startup := None));
    SuspendedActs(begun, PairingTask(begun.generation));
  }

  /** The address to dial exists but cannot be made a socket URL. */
  predicate CannotDial(c: Client, remote: bool) {
    && c.credentials.Some? && c.networkAvailable && !URLBuilds(c.credentials.value, remote)
    && (remote ==> c.credentials.value.hasRelayURL)
  }

  lemma MissingRelayTends(c: Client, remote: bool)
    requires LeaseOk(c) && c.startup.None? && !c.stopped && c.credentials.Some?
    requires remote && !c.credentials.value.hasRelayURL
    ensures Tended(Connected(c, remote, c.generation))
  {
    var begun := BeginGeneration(c);
    if c.networkAvailable {
      SuspendedActs(begun, ReconnectTask(begun.generation, None));
    }
    NoSocketNoMarker(ScheduledReconnect(begun, begun.generation));
  }

  lemma MissingURLStops(c: Client, remote: bool)
    requires LeaseOk(c) && c.startup.None? && !c.stopped && c.credentials.Some?
    requires !URLBuilds(c.credentials.value, remote) && (remote ==> c.credentials.value.hasRelayURL)
    ensures Tended(Connected(c, remote, c.generation)) <==> !c.networkAvailable
  {
    var d := Connected(c, remote, c.generation);
    assert forall id :: id in d.tasks ==> !Acts(d, d.tasks[id]);
  }

  lemma DialTends(c: Client, remote: bool)
    requires LeaseOk(c) && c.startup.None? && !c.stopped && c.credentials.Some?
    requires URLBuilds(c.credentials.value, remote) && (remote ==> c.credentials.value.hasRelayURL)
    ensures var d := Connected(c, remote, c.generation);
            Tended(d) && d.generation == c.generation + 1 && d.socket == Some(c.nextSocket)
  {
    var begun := BeginGeneration(c);
    var dialled := begun.(retryRemoteNext := !remote, socket := Some(c.nextSocket), nextSocket := c.nextSocket + 1);
    SuspendedServes(dialled, AuthTask(begun.generation, c.nextSocket, c.credentials.value));
  }

  lemma ConnectingTendsExactlyWhen(c: Client, remote: bool)
    requires LeaseOk(c) && c.startup.None? && !c.stopped
    ensures c.credentials.Some? ==> (Tended(Connected(c, remote, c.generation)) <==> !CannotDial(c, remote))
    ensures c.credentials.None? ==> Connected(c, remote, c.generation) == c && !CannotDial(c, remote)
  {
    if c.credentials.Some? {
      if remote && !c.credentials.value.hasRelayURL {
        MissingRelayTends(c, remote);
      } else if URLBuilds(c.credentials.value, remote) {
        DialTends(c, remote);
      } else {
        MissingURLStops(c, remote);
      }
    }
  }

  // ------------------------------------------------------------ one continuation

  /** Nothing else would act if this continuation does nothing. */
  ghost predicate LeftAlone(c: Client, id: nat) {
    && Paired(c) && c.socket.None?
    && forall other :: other in c.tasks && other != id ==> !Acts(c, c.tasks[other])
  }

  /** Which address a reconnect dials: the one it was told, or the relay every other time. */
  predicate ReconnectsRemotely(c: Client, remote: Option<bool>) {
    if remote.Some? then remote.value else CanUseRemote(c) && c.retryRemoteNext
  }

  /** The events that leave a paired client without anything under way: a startup
      check that fails while there is no relay, a pairing that fails, and a dial
      whose URL cannot be built. */
  ghost predicate GivesUp(c: Client, e: Event) {
    && e.Resume? && e.id in c.tasks && Acts(c, c.tasks[e.id])
    && match c.tasks[e.id]
       case StartupTask(_, credentials) =>
         if e.result.Succeeded? then CannotDial(c, PrefersRemote(credentials))
         else if credentials.hasRelayURL && credentials.hasRelayToken then CannotDial(c, true)
         else LeftAlone(c, e.id)
       case PairingTask(_) =>
         if !e.result.Paired? then LeftAlone(c, e.id)
         else
           e.result.saved &&
           CannotDial(c.(credentials := Some(e.result.credentials)), PrefersRemote(e.result.credentials))
       case ReconnectTask(_, remote) =>
         CannotDial(c, ReconnectsRemotely(c, remote))
       case _ => false
  }

  lemma TakenTends(c: Client, id: nat)
    requires LeaseOk(c) && Tended(c) && id in c.tasks && !Acts(c, c.tasks[id]) && !Serves(c, c.tasks[id])
    ensures Tended(c.(tasks := c.tasks - {id}))
  {
    var rest := c.(tasks := c.tasks - {id});
    assert forall x :: x in rest.tasks <==> x in c.tasks && x != id;
    if c.startup.Some? {
      var x :| x in c.tasks && c.tasks[x].StartupTask? && c.tasks[x].generation == c.generation;
      assert Acts(c, c.tasks[x]) && x in rest.tasks;
    }
    if c.socket.Some? {
      var x :| x in c.tasks && Serves(c, c.tasks[x]);
      assert x in rest.tasks && Serves(rest, rest.tasks[x]);
    } else if Paired(c) {
      var x :| x in c.tasks && Acts(c, c.tasks[x]);
      assert x in rest.tasks && Acts(rest, rest.tasks[x]);
    }
  }

  /** A continuation that would act ends without acting. */
  lemma IdleTendsExactlyWhen(c: Client, id: nat)
    requires LeaseOk(c) && Tended(c) && id in c.tasks && Acts(c, c.tasks[id])
    ensures Tended(c.(tasks := c.tasks - {id}, startup := None)) <==> !LeftAlone(c, id)
  {
    var rest := c.(tasks := c.tasks - {id}, startup := None);
    assert forall x :: x in rest.tasks <==> x in c.tasks && x != id;
    assert forall x ::
             x in rest.tasks ==> rest.tasks[x] == c.tasks[x] && (Acts(rest, rest.tasks[x]) <==> Acts(c, c.tasks[x]));
    if c.socket.Some? {
      var x :| x in c.tasks && Serves(c, c.tasks[x]);
      assert x in rest.tasks && Serves(rest, rest.tasks[x]);
    }
  }

  lemma ConnectingTaken(c: Client, id: nat, remote: bool)
    requires LeaseOk(c) && id in c.tasks && Acts(c, c.tasks[id])
    ensures var rest := c.(tasks := c.tasks - {id}, startup := None);
            && LeaseOk(rest)
            && (c.socket.None? || c.credentials.Some? ==>
                  (Tended(Connected(rest, remote, c.generation)) <==> !CannotDial(c, remote)))
  {
    var rest := c.(tasks := c.tasks - {id}, startup := None);
    assert forall x :: x in rest.tasks ==> x in c.tasks && rest.tasks[x] == c.tasks[x];
    ConnectingTendsExactlyWhen(rest, remote);
  }

  lemma StartupTendsExactlyWhen(c: Client, e: Event)
    requires LeaseOk(c) && Tended(c) && e.Resume? && e.id in c.tasks
    requires Acts(c, c.tasks[e.id]) && c.tasks[e.id].StartupTask?
    ensures Tended(Step(c, e)) <==> !GivesUp(c, e)
  {
    var task := c.tasks[e.id];
    ConnectingTaken(c, e.id, PrefersRemote(task.credentials));
    ConnectingTaken(c, e.id, true);
    IdleTendsExactlyWhen(c, e.id);
    var rest := c.(tasks := c.tasks - {e.id});
    assert (if rest.startup == Some(task.generation) then rest.(startup := None) else rest) == rest.(startup := None);
    assert Step(c, e) == StartupResumed(rest, task, e.result);
  }

  lemma ReconnectConnects(c: Client, e: Event)
    requires LeaseOk(c) && e.Resume? && e.id in c.tasks && c.tasks[e.id].ReconnectTask? && Acts(c, c.tasks[e.id])
    ensures var rest := c.(tasks := c.tasks - {e.id}, startup := None);
            Step(c, e) == Connected(rest, ReconnectsRemotely(c, c.tasks[e.id].remote), c.generation)
  {
    assert c.startup.None?;
    assert c.(tasks := c.tasks - {e.id}, startup := None) == c.(tasks := c.tasks - {e.id});
  }

  lemma ReconnectTendsExactlyWhen(c: Client, e: Event)
    requires LeaseOk(c) && Tended(c) && e.Resume? && e.id in c.tasks
    requires Acts(c, c.tasks[e.id]) && c.tasks[e.id].ReconnectTask?
    ensures Tended(Step(c, e)) <==> !CannotDial(c, ReconnectsRemotely(c, c.tasks[e.id].remote))
  {
    var remote := ReconnectsRemotely(c, c.tasks[e.id].remote);
    ReconnectConnects(c, e);
    ConnectingTaken(c, e.id, remote);
  }

  /** The client with the credentials a pairing brought. */
  lemma PairedConnects(c: Client, e: Event)
    requires LeaseOk(c) && e.Resume? && e.id in c.tasks && c.tasks[e.id].PairingTask? && Acts(c, c.tasks[e.id])
    requires e.result.Paired? && e.result.saved
    ensures var adopted := c.(credentials := Some(e.result.credentials));
            var rest := adopted.(tasks := c.tasks - {e.id}, startup := None);
            Step(c, e) == Connected(rest, PrefersRemote(e.result.credentials), c.generation) && LeaseOk(adopted)
  {
    assert c.startup.None?;
  }

  lemma UnpairedTendsExactlyWhen(c: Client, e: Event)
    requires LeaseOk(c) && Tended(c) && e.Resume? && e.id in c.tasks
    requires Acts(c, c.tasks[e.id]) && c.tasks[e.id].PairingTask? && !e.result.Paired?
    ensures Tended(Step(c, e)) <==> !LeftAlone(c, e.id)
  {
    IdleTendsExactlyWhen(c, e.id);
    assert Step(c, e) == c.(tasks := c.tasks - {e.id}, startup := None);
  }

  lemma UnsavedTends(c: Client, e: Event)
    requires LeaseOk(c) && Tended(c) && e.Resume? && e.id in c.tasks
    requires Acts(c, c.tasks[e.id]) && c.tasks[e.id].PairingTask? && e.result.Paired? && !e.result.saved
    ensures Tended(Step(c, e))
  {
    NoSocketNoMarker(Stopped(c.(tasks := c.tasks - {e.id}, credentials := Some(e.result.credentials))));
  }

  lemma SavedTendsExactlyWhen(c: Client, e: Event)
    requires LeaseOk(c) && Tended(c) && e.Resume? && e.id in c.tasks
    requires Acts(c, c.tasks[e.id]) && c.tasks[e.id].PairingTask? && e.result.Paired? && e.result.saved
    ensures Tended(Step(c, e)) <==>
            !CannotDial(c.(credentials := Some(e.result.credentials)), PrefersRemote(e.result.credentials))
  {
    PairedConnects(c, e);
    ConnectingTaken(c.(credentials := Some(e.result.credentials)), e.id, PrefersRemote(e.result.credentials));
  }

  lemma AuthTends(c: Client, task: Task, result: Result, nonce: nat)
    requires LeaseOk(c) && Authenticating(task) && IsCurrent(c, task.socket, task.generation) && !c.connected
    ensures Tended(AuthResumed(c, task, result, nonce))
  {
    var generation, socket, credentials := task.generation, task.socket, task.credentials;
    if task.AuthTask? && credentials.deviceKey.Some? {
      SuspendedServes(c.(nonces := c.nonces + {nonce}), AuthSending(generation, socket, credentials, nonce));
    } else if task.AuthSending? && !result.Failed? {
      SuspendedServes(c, AuthWaiting(generation, socket, credentials, task.clientNonce));
    } else if task.AuthWaiting? && ReplyProven(task, result) {
      var deviceKey := credentials.deviceKey.value;
      var installed := Installed(c, Derived(deviceKey, task.clientNonce, result.frame.serverNonce, ToServer),
                                 Derived(deviceKey, task.clientNonce, result.frame.serverNonce, ToClient));
      SuspendedServes(installed, ReceiveTask(generation, socket, credentials));
    } else {
      FailingTends(c, socket, generation, false);
      FailingTends(c, socket, generation, true);
    }
  }

  lemma AskingServes(c: Client, task: Task)
    requires LeaseOk(c) && c.connected && Serves(c, task)
    ensures Serves(Sent(c, SNAPSHOT_REQUEST, true), task)
  {
    SealedSend(c, SNAPSHOT_REQUEST);
  }

  lemma AnsweredTends(c: Client, task: Task, verdict: Verdict)
    requires LeaseOk(c) && task.ReceiveTask? && IsCurrent(c, task.socket, task.generation)
    requires c.connected || Tended(c)
    ensures Tended(Answered(c, task, verdict))
  {
    if c.connected {
      AskingServes(c, task);
      SuspendedServes(Sent(c, SNAPSHOT_REQUEST, true), task);
      SuspendedServes(c, task);
    } else {
      assert Sent(c, SNAPSHOT_REQUEST, true) == c;
      SuspendKeepsTended(c, task);
    }
  }

  lemma ReceiveTends(c: Client, task: Task, result: Result)
    requires LeaseOk(c) && task.ReceiveTask? && IsCurrent(c, task.socket, task.generation)
    requires c.connected || Tended(c)
    ensures Tended(ReceiveResumed(c, task, result))
  {
    FailingTends(c, task.socket, task.generation, false);
    FailingTends(c, task.socket, task.generation, true);
    var decrypted := ReceivedPlain(c, task, result);
    if decrypted.Some? && c.serverTx.value in c.consumed && c.serverTx.value in c.verdicts &&
       c.serverTx.value in c.delivered {
      var counted := Consuming(c, decrypted.value, result.verdict.Accept?);
      assert LeaseOk(counted) && (Tended(c) ==> Tended(counted));
      FailingTends(counted, task.socket, task.generation, result.policy);
      AnsweredTends(counted, task, result.verdict);
    }
  }

  lemma ServedTends(c: Client, e: Event, peer: Logs)
    requires Valid(c, peer) && Tended(c) && e.Resume? && Plausible(c, e, peer) && e.id in c.tasks
    requires HasSocket(c.tasks[e.id]) && IsCurrent(c, c.tasks[e.id].socket, c.tasks[e.id].generation)
    ensures Tended(Step(c, e))
  {
    var task, rest := c.tasks[e.id], c.(tasks := c.tasks - {e.id});
    TakeTaskKeepsValid(c, e.id, peer);
    if Authenticating(task) {
      AuthTends(rest, task, e.result, e.nonce);
    } else {
      if !Serves(c, task) {
        TakenTends(c, e.id);
      }
      if task.ReceiveTask? {
        ReceiveTends(rest, task, e.result);
      } else {
        FailingTends(rest, task.socket, task.generation, false);
        FailingTends(rest, task.socket, task.generation, true);
      }
    }
  }

  lemma ResumedTendsExactlyWhen(c: Client, e: Event, peer: Logs)
    requires Valid(c, peer) && Tended(c) && e.Resume? && Plausible(c, e, peer)
    ensures Tended(Step(c, e)) <==> !GivesUp(c, e)
  {
    if e.id in c.tasks {
      var task := c.tasks[e.id];
      if Acts(c, task) {
        if task.StartupTask? {
          StartupTendsExactlyWhen(c, e);
        } else if task.PairingTask? {
          if !e.result.Paired? {
            UnpairedTendsExactlyWhen(c, e);
          } else if e.result.saved {
            SavedTendsExactlyWhen(c, e);
          } else {
            UnsavedTends(c, e);
          }
        } else {
          ReconnectTendsExactlyWhen(c, e);
        }
      } else if HasSocket(task) && IsCurrent(c, task.socket, task.generation) {
        ServedTends(c, e, peer);
      } else {
        TakenTends(c, e.id);
        StaleContinuationsDoNothing(c, e.id, e.result, e.nonce, peer);
      }
    }
  }

  lemma SealedSend(c: Client, message: Plain)
    requires c.connected && c.socket.Some? && c.clientTx.Some? && c.credentials.Some?
    ensures Sent(c, message, true) == Suspend(Sealing(c, message), SendTask(c.generation, c.socket.value))
  {
  }

  lemma SealedTends(c: Client, message: Plain)
    requires LeaseOk(c) && Tended(c) && c.connected && c.clientTx.Some?
    ensures Tended(Suspend(Sealing(c, message), SendTask(c.generation, c.socket.value)))
  {
    var d := Suspend(Sealing(c, message), SendTask(c.generation, c.socket.value));
    var id :| id in c.tasks && Serves(c, c.tasks[id]);
    assert c.nextTask !in c.tasks;
    assert d.tasks[id] == c.tasks[id] && Serves(d, d.tasks[id]);
  }

  lemma UnsealedTends(c: Client) returns (d: Client)
    requires c.startup.None? && c.socket.Some? && !c.stopped
    ensures d == SealingFailed(c) && Tended(d)
  {
    var counted := c.(sendCounter := c.sendCounter + 1);
    d := Failing(counted, c.socket.value, c.generation, false);
    FailingTends(counted, c.socket.value, c.generation, false);
  }

  lemma SentTends(c: Client, message: Plain, encrypts: bool)
    requires LeaseOk(c) && Tended(c)
    ensures Tended(Sent(c, message, encrypts))
  {
    if !c.connected {
      assert Sent(c, message, encrypts) == c;
    } else if encrypts {
      SealedSend(c, message);
      SealedTends(c, message);
    } else {
      var d := UnsealedTends(c);
      assert Sent(c, message, encrypts) == d;
    }
  }

  lemma OtherNetworkKeepsTended(c: Client, available: bool)
    requires LeaseOk(c) && Tended(c) && (available ==> c.networkAvailable || !Paired(c.(networkAvailable := true)))
    ensures Tended(c.(networkAvailable := available))
  {
    var seen := c.(networkAvailable := available);
    if c.socket.Some? {
      var id :| id in c.tasks && Serves(c, c.tasks[id]);
      assert Serves(seen, seen.tasks[id]);
    } else if Paired(seen) {
      var id :| id in c.tasks && Acts(c, c.tasks[id]);
      assert Acts(seen, seen.tasks[id]);
    }
  }

  lemma ServedUnderAnyNetwork(c: Client, available: bool)
    requires LeaseOk(c) && c.connected && Tended(c)
    ensures Tended(c.(networkAvailable := available))
  {
    var seen := c.(networkAvailable := available);
    var id :| id in c.tasks && Serves(c, c.tasks[id]);
    assert id in seen.tasks && Serves(seen, seen.tasks[id]);
    assert c.startup.None?;
    NoMarker(seen);
  }

  lemma NoMarker(c: Client)
    requires c.startup.None?
    ensures MarkerOk(c)
  {
  }

  lemma NetworkTends(c: Client, available: bool)
    requires LeaseOk(c) && Tended(c)
    ensures Tended(Step(c, NetworkChanges(available)))
  {
    var seen := c.(networkAvailable := available);
    if available && !c.networkAvailable && !c.stopped && c.credentials.Some? {
      if c.connected {
        ServedUnderAnyNetwork(c, available);
      } else {
        StartedTends(BeginGeneration(seen.(stopped := false, startup := None)));
      }
    } else {
      OtherNetworkKeepsTended(c, available);
    }
  }

  /** An event leaves a client that is tended tended, exactly unless it gives up. */
  lemma StaysTendedUnlessGivenUp(c: Client, e: Event, peer: Logs)
    requires Valid(c, peer) && Tended(c) && Plausible(c, e, peer)
    ensures Tended(Step(c, e)) <==> !GivesUp(c, e)
  {
    match e
    case Start => StartedTends(c);
    case RetryNow => RetriedTends(c);
    case Stop =>
    case Forget =>
    case Pair => PairingTends(c);
    case NetworkChanges(available) => NetworkTends(c, available);
    case UserSends(message, encrypts) => SentTends(c, message, encrypts);
    case Resume(_, _, _) => ResumedTendsExactlyWhen(c, e, peer);
  }

  // ------------------------------------------------------------------------- runs

  ghost predicate AlwaysTended(c: Client, events: seq<Event>)
    decreases |events|
  {
    Tended(c) && (events == [] || AlwaysTended(Step(c, events[0]), events[1..]))
  }

  ghost predicate NeverGivesUp(c: Client, events: seq<Event>)
    decreases |events|
  {
    events == [] || (!GivesUp(c, events[0]) && NeverGivesUp(Step(c, events[0]), events[1..]))
  }

  lemma {:induction false} TendedFromHere(c: Client, events: seq<Event>, peer: Logs)
    requires Valid(c, peer) && Tended(c) && PlausibleRun(c, events, peer)
    ensures AlwaysTended(c, events) <==> NeverGivesUp(c, events)
    decreases |events|
  {
    if events != [] {
      var next := Step(c, events[0]);
      StaysTendedUnlessGivenUp(c, events[0], peer);
      StepKeepsValid(c, events[0], peer);
      if Tended(next) {
        TendedFromHere(next, events[1..], peer);
      }
    }
  }

  /** Once started, a client is tended throughout a run, whatever the user, the
      network and the Bridge do, exactly when no event of the run gives up. */
  lemma AlwaysTendedExactlyWhen(credentials: Option<Credentials>, events: seq<Event>, peer: Logs)
    requires PlausibleRun(Step(Fresh(credentials), Start), events, peer)
    ensures var started := Step(Fresh(credentials), Start);
            AlwaysTended(started, events) <==> NeverGivesUp(started, events)
  {
    FreshIsValid(credentials, peer);
    StepKeepsValid(Fresh(credentials), Start, peer);
    StartedTends(Fresh(credentials));
    TendedFromHere(Step(Fresh(credentials), Start), events, peer);
  }

  // --------------------------------------------------------------- what is reached

  /** After a failure of the current socket that is no policy violation, a reconnect
      waits that is still accepted, exactly when the network is there or the relay is
      next and can be used. */
  lemma FailureReconnectsExactlyWhen(c: Client, socket: nat, generation: nat)
    requires LeaseOk(c) && IsCurrent(c, socket, generation)
    ensures var d := Failing(c, socket, generation, false);
            && d.socket.None? && !d.connected && d.credentials == c.credentials
            && if c.networkAvailable || (c.retryRemoteNext && CanUseRemote(c))
               then d.tasks.Keys == c.tasks.Keys + {c.nextTask} && d.tasks[c.nextTask].ReconnectTask? &&
                    Acts(d, d.tasks[c.nextTask])
               else d.tasks == c.tasks
  {
    var d, dropped := Failing(c, socket, generation, false), c.(connected := false, socket := None);
    if c.retryRemoteNext && CanUseRemote(c) {
      assert d == Suspend(dropped, ReconnectTask(generation, Some(true)));
    } else if c.networkAvailable {
      assert d == Suspend(dropped, ReconnectTask(generation, None));
    } else {
      assert d == dropped;
    }
  }

  /** After a policy violation nothing is accepted any more, and nothing that waits
      will be, even once the client is woken again. */
  lemma ViolationEndsThePairing(c: Client, socket: nat, generation: nat, other: nat)
    requires LeaseOk(c) && IsCurrent(c, socket, generation)
    ensures var d := Failing(c, socket, generation, true);
            && d.socket.None? && !d.connected && d.credentials.None? && d.tasks == c.tasks && !Accepts(d, other)
            && forall id :: id in d.tasks ==> !Accepts(d.(stopped := false), d.tasks[id].generation)
  {
  }

  /** A reconnect that is resumed dials: a new socket of a newer generation, on which
      a handshake waits. It dials the relay when that was asked for, or comes next. */
  lemma ReconnectDials(c: Client, id: nat, result: Result, nonce: nat)
    requires LeaseOk(c) && id in c.tasks && c.tasks[id].ReconnectTask? && Acts(c, c.tasks[id]) && c.credentials.Some?
    requires var remote := ReconnectsRemotely(c, c.tasks[id].remote);
             URLBuilds(c.credentials.value, remote) && (remote ==> c.credentials.value.hasRelayURL)
    ensures var d := Step(c, Resume(id, result, nonce));
            && d.socket == Some(c.nextSocket) && d.generation > c.generation && Served(d) && !d.connected
            && d.retryRemoteNext == !ReconnectsRemotely(c, c.tasks[id].remote)
  {
    var rest := c.(tasks := c.tasks - {id});
    assert c.startup.None?;
    assert LeaseOk(rest);
    DialTends(rest, ReconnectsRemotely(c, c.tasks[id].remote));
  }

  /** A connection that failed is tried again the other way: over the relay after a
      direct one, if the relay can be used, and directly after one over the relay. */
  lemma FailedDialsAlternate(c: Client, socket: nat, result: Result, nonce: nat)
    requires LeaseOk(c) && IsCurrent(c, socket, c.generation) && c.networkAvailable && c.credentials.Some?
    requires c.credentials.value.bridgeURLBuilds && c.credentials.value.relayURLBuilds
    requires c.credentials.value.hasRelayURL && c.credentials.value.hasRelayToken
    ensures var failed := Failing(c, socket, c.generation, false);
            var d := Step(failed, Resume(c.nextTask, result, nonce));
            && d.socket == Some(c.nextSocket) && d.generation > c.generation && Served(d) && !d.connected
            && d.retryRemoteNext == !c.retryRemoteNext
  {
    var failed := Failing(c, socket, c.generation, false);
    FailureReconnectsExactlyWhen(c, socket, c.generation);
    assert LeaseOk(failed) by { FailingKeepsLease(c, socket, c.generation); }
    ReconnectDials(failed, c.nextTask, result, nonce);
  }

  lemma FailingKeepsLease(c: Client, socket: nat, generation: nat)
    requires LeaseOk(c) && IsCurrent(c, socket, generation)
    ensures LeaseOk(Failing(c, socket, generation, false))
  {
    var dropped := c.(connected := false, socket := None);
    assert c.startup.None?;
    assert LeaseOk(dropped);
    SuspendKeepsLease(dropped, ReconnectTask(generation, Some(true)));
    SuspendKeepsLease(dropped, ReconnectTask(generation, None));
  }

  lemma StartupConnects(c: Client, id: nat, result: Result, nonce: nat)
    requires LeaseOk(c) && id in c.tasks && c.tasks[id].StartupTask? && Acts(c, c.tasks[id])
    requires c.credentials == Some(c.tasks[id].credentials)
    ensures var rest, own := c.(tasks := c.tasks - {id}, startup := None), c.tasks[id].credentials;
            Step(c, Resume(id, result, nonce)) ==
            if result.Succeeded? then Connected(rest, PrefersRemote(own), c.generation)
            else if own.hasRelayURL && own.hasRelayToken then Connected(rest, true, c.generation)
            else rest
  {
    var taken := c.(tasks := c.tasks - {id});
    assert c.startup.Some? ==> c.startup.value == c.generation;
    assert (if c.startup == Some(c.generation) then taken.(startup := None) else taken) ==
           c.(tasks := c.tasks - {id}, startup := None);
  }

  /** The first dial goes to the Bridge, unless the relay is on the same host, or the
      Bridge did not answer the check and there is a relay. */
  lemma StartupDials(c: Client, id: nat, result: Result, nonce: nat)
    requires LeaseOk(c) && id in c.tasks && c.tasks[id].StartupTask? && Acts(c, c.tasks[id])
    requires c.credentials == Some(c.tasks[id].credentials)
    requires c.credentials.value.bridgeURLBuilds && c.credentials.value.relayURLBuilds
    ensures var d, relay := Step(c, Resume(id, result, nonce)),
                            c.credentials.value.hasRelayURL && c.credentials.value.hasRelayToken;
            if result.Succeeded? || relay
            then && d.socket == Some(c.nextSocket) && d.generation > c.generation && Tended(d)
                 && d.retryRemoteNext == !(relay && (!result.Succeeded? || c.credentials.value.relayIsBridgeHost))
            else d.socket == c.socket && d.generation == c.generation
  {
    StartupConnects(c, id, result, nonce);
    var rest, own := c.(tasks := c.tasks - {id}, startup := None), c.credentials.value;
    if result.Succeeded? {
      DialTends(rest, PrefersRemote(own));
      DialAlternates(rest, PrefersRemote(own));
    } else if own.hasRelayURL && own.hasRelayToken {
      DialTends(rest, true);
      DialAlternates(rest, true);
    }
  }

  lemma DialAlternates(c: Client, remote: bool)
    requires !c.stopped && c.credentials.Some?
    requires URLBuilds(c.credentials.value, remote) && (remote ==> c.credentials.value.hasRelayURL)
    ensures var d := Connected(c, remote, c.generation);
            d.retryRemoteNext == !remote && d.credentials == c.credentials && !d.stopped && !d.connected
  {
  }

  predicate IsOnSocket(task: Task) {
    task.AuthSending? || task.AuthWaiting? || task.ReceiveTask? || task.SendTask?
  }

  /** Whatever fails on the current socket, a handshake, a receive or one send, fails
      the connection; what fails on any other changes nothing. */
  lemma SocketErrorFailsTheConnection(c: Client, id: nat, policy: bool, nonce: nat)
    requires LeaseOk(c) && id in c.tasks && IsOnSocket(c.tasks[id])
    ensures var rest, task := c.(tasks := c.tasks - {id}), c.tasks[id];
            Step(c, Resume(id, Failed(policy), nonce)) ==
            if IsCurrent(c, task.socket, task.generation) then Failing(rest, task.socket, task.generation, policy)
            else rest
  {
  }

  /** What sets a paired client going: a start when nothing is under way, a retry
      while it is not connected, and the network coming back to one not stopped. */
  predicate Wakes(c: Client, e: Event) {
    && c.credentials.Some?
    && match e
       case Start => c.socket.None? && c.startup.None?
       case RetryNow => !c.connected
       case NetworkChanges(available) => available && !c.networkAvailable && !c.connected && !c.stopped
       case _ => false
  }

  /** A check of the Bridge waits in `d` under a newer generation than `c` had, and
      nothing that waited in `c` is accepted any more. */
  ghost predicate StartsUp(c: Client, d: Client) {
    && !d.stopped && d.socket.None? && d.generation > c.generation && d.credentials == c.credentials
    && c.credentials.Some? && d.tasks == c.tasks[c.nextTask := StartupTask(d.generation, c.credentials.value)]
    && Acts(d, d.tasks[c.nextTask]) && forall id :: id in c.tasks ==> !Accepts(d, c.tasks[id].generation)
  }

  predicate InThePast(c: Client) {
    forall id :: id in c.tasks ==> c.tasks[id].generation <= c.generation
  }

  lemma StartedStartsUp(c: Client)
    requires InThePast(c) && !c.connected && c.credentials.Some? && c.socket.None? && c.startup.None?
    ensures StartsUp(c, Started(c))
  {
  }

  lemma RetriedStartsUp(c: Client)
    requires InThePast(c) && !c.connected && c.credentials.Some?
    ensures StartsUp(c, Retried(c))
  {
    StartedStartsUp(BeginGeneration(c.(stopped := false, startup := None)));
  }

  /** What wakes a client starts it up. */
  lemma WokenStartsUp(c: Client, e: Event)
    requires LeaseOk(c) && Wakes(c, e)
    ensures StartsUp(c, Step(c, e))
  {
    assert InThePast(c);
    match e
    case Start => StartedStartsUp(c);
    case RetryNow => RetriedStartsUp(c);
    case NetworkChanges(available) => RetriedStartsUp(c.(networkAvailable := available));
  }

  /** A pairing wakes a client that was stopped: nothing but its answer is accepted. */
  lemma PairingWakes(c: Client)
    requires LeaseOk(c)
    ensures var p := Step(c, Pair);
            && !p.stopped && p.socket.None? && !p.connected && p.generation > c.generation && p.startup.None?
            && p.tasks == c.tasks[c.nextTask := PairingTask(p.generation)] && Acts(p, p.tasks[c.nextTask])
            && p.nextSocket == c.nextSocket && LeaseOk(p)
            && forall id :: id in c.tasks ==> !Accepts(p, c.tasks[id].generation)
  {
  }

  /** A pairing that has succeeded dials with its credentials. */
  lemma PairingDials(p: Client, id: nat, credentials: Credentials, nonce: nat)
    requires LeaseOk(p) && id in p.tasks && p.tasks[id].PairingTask? && Acts(p, p.tasks[id])
    requires URLBuilds(credentials, PrefersRemote(credentials))
    ensures var d := Step(p, Resume(id, Result.Paired(credentials, true), nonce));
            && d.credentials == Some(credentials) && d.socket == Some(p.nextSocket) && Tended(d) && !d.connected
            && !d.stopped && d.retryRemoteNext == !PrefersRemote(credentials)
  {
    var e := Resume(id, Result.Paired(credentials, true), nonce);
    PairedConnects(p, e);
    var rest := p.(credentials := Some(credentials)).(tasks := p.tasks - {id}, startup := None);
    DialTends(rest, PrefersRemote(credentials));
    DialAlternates(rest, PrefersRemote(credentials));
  }

  /** A client that is stopped or forgets its device has no socket, and nothing that
      waits is accepted until it is woken, nor after. */
  lemma StoppedRests(c: Client, e: Event, generation: nat)
    requires LeaseOk(c) && (e == Stop || e == Forget)
    ensures var d := Step(c, e);
            && d.stopped && d.socket.None? && !d.connected && d.startup.None? && d.tasks == c.tasks
            && !Accepts(d, generation)
            && (forall id :: id in c.tasks ==> !Accepts(d.(stopped := false), c.tasks[id].generation))
            && d.credentials == if e == Forget then None else c.credentials
  {
  }

  /** A handshake waits on the socket with this device key, or has drawn this nonce. */
  predicate Handshaking(c: Client, id: nat, deviceKey: nat) {
    && LeaseFits(c) && id in c.tasks && !c.connected && Serves(c, c.tasks[id])
    && c.tasks[id].credentials.deviceKey == Some(deviceKey)
  }

  predicate LeaseFits(c: Client) {
    c.socket.Some? && c.nextTask !in c.tasks
  }

  /** An honest Bridge that answers gets the client connected, in three resumptions,
      under the keys that both nonces determine. */
  lemma HandshakeConnects(c: Client, id: nat, deviceKey: nat, clientNonce: nat, serverNonce: nat, verdict: Verdict,
                          x: nat, y: nat)
    requires Handshaking(c, id, deviceKey) && c.tasks[id].AuthTask?
    requires c.nextTask + 1 !in c.tasks
    ensures var sending := Step(c, Resume(id, Succeeded, clientNonce));
            var waiting := Step(sending, Resume(c.nextTask, Succeeded, x));
            var proof := ServerProof(deviceKey, clientNonce, serverNonce);
            var d := Step(waiting, Resume(c.nextTask + 1, GotFrame(AuthOk(serverNonce, proof), verdict, false), y));
            && d.connected && d.socket == c.socket && d.generation == c.generation && Served(d)
            && d.clientTx == Some(Derived(deviceKey, clientNonce, serverNonce, ToServer))
            && d.serverTx == Some(Derived(deviceKey, clientNonce, serverNonce, ToClient))
            && d.sendCounter == c.sendCounter && d.receiveCounter == c.receiveCounter
  {
    var task := c.tasks[id];
    var sending := Step(c, Resume(id, Succeeded, clientNonce));
    assert sending.tasks[c.nextTask] == AuthSending(task.generation, task.socket, task.credentials, clientNonce);
    var waiting := Step(sending, Resume(c.nextTask, Succeeded, x));
    assert waiting.tasks[c.nextTask + 1] == AuthWaiting(task.generation, task.socket, task.credentials, clientNonce);
    var proof := ServerProof(deviceKey, clientNonce, serverNonce);
    var d := Step(waiting, Resume(c.nextTask + 1, GotFrame(AuthOk(serverNonce, proof), verdict, false), y));
    assert Serves(d, d.tasks[c.nextTask + 2]);
  }

  /** That answer is what the Bridge gives to the client's proof, if the device is
      registered with that key and not revoked; it then has the same keys. */
  lemma BridgeAnswersTheProof(deviceId: string, deviceKey: nat, clientNonce: nat, devices: map<string, Device>,
                              serverNonce: nat, greeting: Plain)
    requires deviceId in devices && !devices[deviceId].revoked && devices[deviceId].deviceKey == deviceKey
    ensures var proof := ClientProof(deviceKey, clientNonce);
            var auth := Auth(deviceId, clientNonce, NONCE_BYTES, proof);
            var s := Received(FRESH_SERVER, auth, devices, serverNonce, greeting);
            && s.open && |s.sent| == 2
            && s.sent[0] == AuthOk(serverNonce, ServerProof(deviceKey, clientNonce, serverNonce))
            && s.clientTx == Some(Derived(deviceKey, clientNonce, serverNonce, ToServer))
            && s.serverTx == Some(Derived(deviceKey, clientNonce, serverNonce, ToClient))
            && s.sent[1].Secure? && s.sent[1].cipher.Sealed? && s.sent[1].cipher.plain == greeting
  {
  }

  // ------------------------------------------------------------ everything arrives

  function SentInOrder(c: Client, messages: seq<Plain>): Client
    decreases |messages|
  {
    if messages == [] then c else SentInOrder(Sent(c, messages[0], true), messages[1..])
  }

  function SealsOf(key: Key, counter: nat, messages: seq<Plain>): (seals: seq<Seal>)
    ensures |seals| == |messages|
    decreases |messages|
  {
    if messages == [] then [] else [Seal(key, counter, messages[0])] + SealsOf(key, counter + 1, messages[1..])
  }

  predicate CanSend(c: Client, key: Key) {
    c.connected && c.socket.Some? && c.clientTx == Some(key) && c.credentials.Some?
  }

  lemma OneSendIsSealed(c: Client, key: Key, message: Plain)
    requires CanSend(c, key)
    ensures var d := Sent(c, message, true);
            && CanSend(d, key) && d.seals == c.seals + [Seal(key, c.sendCounter, message)]
            && d.sendCounter == c.sendCounter + 1
  {
    SealedSend(c, message);
  }

  /** A connected client seals every message it sends, in order, under one counter
      after the other. */
  lemma {:induction false} EverySendIsSealed(c: Client, key: Key, messages: seq<Plain>)
    requires CanSend(c, key)
    ensures var d := SentInOrder(c, messages);
            && d.seals == c.seals + SealsOf(key, c.sendCounter, messages)
            && d.sendCounter == c.sendCounter + |messages| && CanSend(d, key)
    decreases |messages|
  {
    if messages != [] {
      OneSendIsSealed(c, key, messages[0]);
      EverySendIsSealed(Sent(c, messages[0], true), key, messages[1..]);
      var first, rest := [Seal(key, c.sendCounter, messages[0])], SealsOf(key, c.sendCounter + 1, messages[1..]);
      assert (c.seals + first) + rest == c.seals + (first + rest);
    }
  }

  function FrameOf(seal: Seal, aad: string): Frame {
    Secure(seal.counter, Sealed(seal.key, seal.counter, aad, seal.plain))
  }

  function AllReceived(s: Server, seals: seq<Seal>): Server
    decreases |seals|
  {
    if seals == [] then s
    else AllReceived(Received(s, FrameOf(seals[0], Aad(s)), map[], 0, INVALID_COMMAND), seals[1..])
  }

  /** A Bridge connection hands over every well-formed command that arrives in order. */
  lemma {:induction false} EveryCommandIsHanded(s: Server, messages: seq<Plain>)
    requires s.device.Some? && s.clientTx.Some? && forall i :: 0 <= i < |messages| ==> messages[i].wellFormed
    ensures var t := AllReceived(s, SealsOf(s.clientTx.value, s.receiveCounter, messages));
            t.delivered == s.delivered + messages && t.open == s.open
    decreases |messages|
  {
    if messages != [] {
      var seals := SealsOf(s.clientTx.value, s.receiveCounter, messages);
      var next := Received(s, FrameOf(seals[0], Aad(s)), map[], 0, INVALID_COMMAND);
      assert seals[1..] == SealsOf(s.clientTx.value, s.receiveCounter + 1, messages[1..]);
      EveryCommandIsHanded(next, messages[1..]);
      assert (s.delivered + [messages[0]]) + messages[1..] == s.delivered + messages;
    }
  }

  /** Over a network that loses nothing, all that a connected client sends is handed
      over by the Bridge connection at the other end. */
  lemma LosslessNetworkDelivers(c: Client, s: Server, messages: seq<Plain>)
    requires s.device.Some? && s.clientTx.Some? && CanSend(c, s.clientTx.value) && s.receiveCounter == c.sendCounter
    requires forall i :: 0 <= i < |messages| ==> messages[i].wellFormed
    ensures var sealed := SentInOrder(c, messages).seals;
            && |sealed| == |c.seals| + |messages|
            && AllReceived(s, sealed[|c.seals|..]).delivered == s.delivered + messages
  {
    EverySendIsSealed(c, c.clientTx.value, messages);
    EveryCommandIsHanded(s, messages);
    var seals := SealsOf(c.clientTx.value, c.sendCounter, messages);
    assert (c.seals + seals)[|c.seals|..] == seals;
  }

  /** A receive loop under this key is waiting. */
  predicate Hears(c: Client, id: nat, key: Key) {
    && id in c.tasks && c.tasks[id].ReceiveTask? && IsCurrent(c, c.tasks[id].socket, c.tasks[id].generation)
    && c.connected && c.serverTx == Some(key) && key in c.consumed && key in c.verdicts && key in c.delivered
  }

  /** The next frame of the Bridge arrives, in order, with this message. */
  function Hearing(c: Client, id: nat, key: Key, message: Plain): Client
    requires id in c.tasks && c.tasks[id].ReceiveTask?
  {
    var aad := AAD_PREFIX + c.tasks[id].credentials.deviceId;
    var frame := FrameOf(Seal(key, c.receiveCounter, message), aad);
    Step(c, Resume(id, GotFrame(frame, Accept(false), false), 0))
  }

  lemma OneMessageIsHeard(c: Client, id: nat, key: Key, message: Plain)
    requires Hears(c, id, key)
    ensures var d := Hearing(c, id, key, message);
            && Hears(d, c.nextTask, key) && d.receiveCounter == c.receiveCounter + 1
            && d.delivered[key] == c.delivered[key] + [message]
  {
    var task, rest := c.tasks[id], c.(tasks := c.tasks - {id});
    var counted := Consuming(rest, message, true);
    assert Hearing(c, id, key, message) == Suspend(counted, task);
  }

  type Arrival = (Client, nat, Plain) -> Client

  function HearingUnder(key: Key): Arrival {
    (c: Client, id: nat, message: Plain) => if Hears(c, id, key) then Hearing(c, id, key, message) else c
  }

  /** Each message finds the receive loop where the one before left it. */
  function AllHeard(hear: Arrival, c: Client, id: nat, messages: seq<Plain>): Client
    decreases |messages|
  {
    if messages == [] then c else AllHeard(hear, hear(c, id, messages[0]), c.nextTask, messages[1..])
  }

  ghost predicate Delivers(hear: Arrival, key: Key) {
    forall c, id, message :: Hears(c, id, key) ==>
      var d := hear(c, id, message);
      Hears(d, c.nextTask, key) && d.delivered[key] == c.delivered[key] + [message]
  }

  lemma {:induction false} EachArrivalAdds(hear: Arrival, c: Client, id: nat, key: Key, messages: seq<Plain>)
    requires Delivers(hear, key) && Hears(c, id, key)
    ensures var d := AllHeard(hear, c, id, messages);
            key in d.delivered && d.delivered[key] == c.delivered[key] + messages && d.connected
    decreases |messages|
  {
    if messages != [] {
      var before, first, rest := c.delivered[key], [messages[0]], messages[1..];
      EachArrivalAdds(hear, hear(c, id, messages[0]), c.nextTask, key, rest);
      assert (before + first) + rest == before + (first + rest) == before + messages;
    }
  }

  /** And all that the Bridge sends reaches `onMessage` while the replica accepts it. */
  lemma EveryMessageIsHeard(c: Client, id: nat, key: Key, messages: seq<Plain>)
    requires Hears(c, id, key)
    ensures var d := AllHeard(HearingUnder(key), c, id, messages);
            key in d.delivered && d.delivered[key] == c.delivered[key] + messages && d.connected
  {
    var hear := HearingUnder(key);
    forall b: Client, x: nat, message: Plain | Hears(b, x, key)
      ensures Hears(hear(b, x, message), b.nextTask, key)
      ensures hear(b, x, message).delivered[key] == b.delivered[key] + [message]
    {
      OneMessageIsHeard(b, x, key, message);
    }
    EachArrivalAdds(hear, c, id, key, messages);
  }
}
