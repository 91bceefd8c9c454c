/** What the command path brings about when the network lets it: a command that is
    sent gets its row and leaves the outbox, and a cancel or retry reaches its row. */
module CommandProgress {
  import opened Keys
  import TC = TaskCommands
  import Outcomes = TaskOutcomes
  import opened DurableOutbox
  import opened CommandPath

  // -------------------------------------------------------- what a Bridge reads

  function PlaceField(command: ClientCommand): string {
    if command.Type() == "task.create" then "workspaceId" else "sessionId"
  }

  /** The fields without which a task command is not stored. */
  predicate Complete(command: ClientCommand) {
    && command.IdempotencyKey().Some? && Text(command.values, "text").Some?
    && Text(command.values, PlaceField(command)).Some?
  }

  /** A complete create, follow-up or message is a submission of its text for its
      place, under the key of the device that sent it; nothing else is one. */
  lemma SubmissionIsRead(packet: Packet, newId: string)
    ensures var command, event := packet.command, AsBridgeEvent(packet, newId);
            && (event.Some? && InsertsRow(event.value) <==> IsTask(command) && Complete(command))
            && (IsTask(command) && Complete(command) ==>
                  && event.value.newId == newId
                  && event.value.key == StorageKey(packet.device, command.IdempotencyKey().value)
                  && event.value.text == Text(command.values, "text").value
                  && (event.value.Create? <==> command.Type() == "task.create")
                  && (if event.value.Create? then event.value.workspaceId else event.value.sessionId) ==
                     Text(command.values, PlaceField(command)).value
                  && ("materialIds" in command.values && command.values["materialIds"].List? ==>
                        event.value.materialIds == command.values["materialIds"].items))
  {
  }

  /** A retry names a row by its id, a cancel by its id or by the key of the device. */
  lemma RetryAndCancelAreRead(packet: Packet, newId: string)
    ensures packet.command.Type() == "task.command.retry" && Text(packet.command.values, "commandId").Some? ==>
              AsBridgeEvent(packet, newId) == Some(TC.Retry(Text(packet.command.values, "commandId").value))
    ensures packet.command.Type() == "task.command.cancel" && packet.command.IdempotencyKey().Some? ==>
              AsBridgeEvent(packet, newId) ==
              Some(TC.Cancel(Text(packet.command.values, "commandId"),
                             StorageKey(packet.device, packet.command.IdempotencyKey().value)))
    ensures !IsTask(packet.command) && packet.command.Type() !in {"task.command.retry", "task.command.cancel"} ==>
              AsBridgeEvent(packet, newId).None?
  {
  }

  // -------------------------------------------------------- a command gets through

  /** A task command the user can send: its fields are there, its key is fresh, and
      nothing is queued under its semantic key. */
  ghost predicate Sendable(detail: Detail, w: World, command: ClientCommand) {
    && IsTask(command) && WellScoped(command) && Complete(command)
    && ColonFree(command.IdempotencyKey().value) && command.IdempotencyKey().value !in w.minted + w.foreign
    && Held(w.phone.memory, SemanticKey(detail, command)).None?
  }

  /** The host is there and paired, and would store the command under `newId`. */
  predicate Storable(w: World, command: ClientCommand, host: string, newId: string)
    requires Complete(command)
  {
    && host in w.hosts && host in w.paired && Reaches(command, host) && newId !in w.hosts[host].rows
    && (command.Type() != "task.create" ==>
          Text(command.values, "sessionId").value in w.hosts[host].sessions)
  }

  lemma SendingAppends(detail: Detail, w: World, command: ClientCommand, at: int)
    requires Sendable(detail, w, command)
    ensures var v, key := Step(detail, w, UserSends(command, "", at, true)), command.IdempotencyKey().value;
            && v.phone == Send(detail, w.phone, command, "", at, true).phone && v.appended == w.appended[key := command]
            && v.hosts == w.hosts && v.paired == w.paired && v.wire == w.wire
    ensures Enabled(w, UserSends(command, "", at, true))
  {
  }

  lemma NewCommandIsQueued(detail: Detail, phone: Phone, command: ClientCommand, at: int)
    requires command.Type() !in REPLACEABLE && Held(phone.memory, SemanticKey(detail, command)).None?
    ensures exists entry :: entry in Send(detail, phone, command, "", at, true).phone.memory && entry.command == command
  {
    OtherCommandIsQueuedOnce(detail, phone, command, "", at);
    var memory := Send(detail, phone, command, "", at, true).phone.memory;
    assert Held(memory, SemanticKey(detail, command)).value in memory;
  }

  lemma FreshKeyIsNew(w: World, host: string, device: string, key: string)
    requires HostsOk(w) && host in w.hosts && key !in w.minted + w.foreign && ColonFree(key)
    ensures TC.KeyIsNew(w.hosts[host], StorageKey(device, key))
  {
    var b := w.hosts[host];
    forall id | id in b.rows ensures b.rows[id].key != StorageKey(device, key) {
      assert HostOk(w.wire, w.minted, w.foreign, w.appended, host, b);
      assert RowOk(w.wire, w.minted, w.foreign, w.appended, host, b.rows[id]);
      StorageKeyParts(device, key);
    }
  }

  /** The row that the command makes on its host. */
  predicate IsRowOf(w: World, command: ClientCommand, host: string, newId: string)
    requires Complete(command) && host in w.paired
  {
    && host in w.hosts && newId in w.hosts[host].rows
    && var row := w.hosts[host].rows[newId];
       && row.key == StorageKey(w.paired[host], command.IdempotencyKey().value)
       && row.text == TC.Trim(Text(command.values, "text").value)
       && (row.kind.CreateTask? <==> command.Type() == "task.create")
       && (command.Type() == "task.create" && Text(command.values, "workspaceId").value in w.hosts[host].workspaces ==>
             row.state.Running?)
  }

  lemma DeliveredMakesItsRow(detail: Detail, w: World, command: ClientCommand, host: string, newId: string)
    requires Valid(detail, w) && IsTask(command) && Complete(command) && Storable(w, command, host, newId)
    requires Packet(host, w.paired[host], command) in w.wire
    requires TC.KeyIsNew(w.hosts[host], StorageKey(w.paired[host], command.IdempotencyKey().value))
    ensures var e := Deliver(Packet(host, w.paired[host], command), newId);
            var v := Step(detail, w, e);
            && Enabled(w, e) && Valid(detail, v) && IsRowOf(v, command, host, newId)
            && v == w.(hosts := v.hosts)
  {
    var packet := Packet(host, w.paired[host], command);
    var e, b := Deliver(packet, newId), w.hosts[host];
    StepKeepsValid(detail, w, e);
    SubmissionIsRead(packet, newId);
    var event := AsBridgeEvent(packet, newId).value;
    assert HostOk(w.wire, w.minted, w.foreign, w.appended, host, b);
    Outcomes.NewSubmissionRunsOrFails(b, event);
    TC.SubmissionStoresExactlyWhen(b, event);
    StepKeepsPlaces(b, event);
  }

  lemma StepKeepsPlaces(b: TC.Bridge, e: TC.Event)
    requires e.Create? || e.FollowUp?
    ensures TC.Step(b, e).workspaces == b.workspaces
  {
    var stored := TC.Insert(b, TC.SubmittedCommand(b, e)).bridge;
    TC.DispatchAllKeepsWorkspaces(stored, TC.QueuedIn(stored.rows, stored.order));
    TC.DispatchAllKeepsWorkspaces(b, TC.QueuedIn(b.rows, b.order));
  }

  lemma AnsweredLeavesTheOutbox(detail: Detail, w: World, command: ClientCommand, host: string, newId: string)
    requires Valid(detail, w) && IsTask(command) && Complete(command) && host in w.paired
    requires ColonFree(command.IdempotencyKey().value) && Reaches(command, host) && IsRowOf(w, command, host, newId)
    requires command.IdempotencyKey().value in w.appended && w.appended[command.IdempotencyKey().value] == command
    requires exists entry :: entry in w.phone.memory && entry.command == command
    ensures var key := command.IdempotencyKey().value;
            var e := AckArrives(host, TaskCommandUpdated(newId, StorageKey(w.paired[host], key)), true);
            var v := Step(detail, w, e);
            && Enabled(w, e) && !InOutbox(v.phone.memory, key) && !InOutbox(v.phone.disk, key)
            && v == w.(phone := v.phone)
  {
    var key := command.IdempotencyKey().value;
    var message := TaskCommandUpdated(newId, StorageKey(w.paired[host], key));
    var v := Step(detail, w, AckArrives(host, message, true));
    StorageKeyParts(w.paired[host], key);
    forall entry | entry in w.phone.memory && IsEntryFor(entry, key)
      ensures Confirms(entry, message, host)
    {
      assert EntryOk(detail, w.foreign, w.appended, entry);
      TaskConfirmedOnlyByItsRow(entry, message, host);
    }
    forall entry ensures !(entry in v.phone.memory && IsEntryFor(entry, key)) {
      AcknowledgedKeepsExactly(w.phone, message, host, entry);
    }
    var queued :| queued in w.phone.memory && queued.command == command;
    assert IsEntryFor(queued, key);
    AcknowledgedKeepsExactly(w.phone, message, host, queued);
  }

  lemma FourSteps(detail: Detail, w: World, e: seq<Event>, a: World, b: World, c: World)
    requires |e| == 4 && a == Step(detail, w, e[0]) && b == Step(detail, a, e[1]) && c == Step(detail, b, e[2])
    requires Enabled(w, e[0]) && Enabled(a, e[1]) && Enabled(b, e[2]) && Enabled(c, e[3])
    ensures Possible(detail, w, e) && Run(detail, w, e) == Step(detail, c, e[3])
  {
    var e1 := e[1..];
    var e2 := e1[1..];
    var e3 := e2[1..];
    var d := Step(detail, c, e[3]);
    assert e1[0] == e[1] && e2[0] == e[2] && e3[0] == e[3] && e3[1..] == [];
    assert Possible(detail, d, []) && Run(detail, d, []) == d;
    assert Possible(detail, c, e3) && Run(detail, c, e3) == d;
    assert Possible(detail, b, e2) && Run(detail, b, e2) == d;
    assert Possible(detail, a, e1) && Run(detail, a, e1) == d;
  }

  /** The world once the command is under way. */
  ghost predicate UnderWay(detail: Detail, w: World, u: World, command: ClientCommand, packet: Packet)
    requires command.IdempotencyKey().Some?
  {
    && Valid(detail, u) && u.hosts == w.hosts && u.paired == w.paired && packet in u.wire
    && command.IdempotencyKey().value in u.appended && u.appended[command.IdempotencyKey().value] == command
    && exists entry :: entry in u.phone.memory && entry.command == command
  }

  lemma CommandIsUnderWay(detail: Detail, w: World, command: ClientCommand, at: int, packet: Packet)
    requires Valid(detail, w) && Sendable(detail, w, command) && packet.command == command
    requires packet.host in w.paired && packet.device == w.paired[packet.host] && Reaches(command, packet.host)
    ensures var send := UserSends(command, "", at, true);
            var sent := Step(detail, w, send);
            && Enabled(w, send) && Enabled(sent, Transmit(packet))
            && UnderWay(detail, w, Step(detail, sent, Transmit(packet)), command, packet)
  {
    var send := UserSends(command, "", at, true);
    var sent := Step(detail, w, send);
    SendingAppends(detail, w, command, at);
    if command.Type() in REPLACEABLE {
      ReplaceableIsNotATask(command);
    }
    NewCommandIsQueued(detail, w.phone, command, at);
    StepKeepsValid(detail, w, send);
    StepKeepsValid(detail, sent, Transmit(packet));
  }

  /** Where the command is once it is answered. */
  ghost predicate GotThrough(v: World, command: ClientCommand, host: string, newId: string) {
    && Complete(command) && host in v.paired && IsRowOf(v, command, host, newId)
    && !InOutbox(v.phone.memory, command.IdempotencyKey().value)
    && !InOutbox(v.phone.disk, command.IdempotencyKey().value)
  }

  function Answer(command: ClientCommand, host: string, device: string, newId: string): Event
    requires command.IdempotencyKey().Some?
  {
    AckArrives(host, TaskCommandUpdated(newId, StorageKey(device, command.IdempotencyKey().value)), true)
  }

  lemma ArrivesAndIsAnswered(detail: Detail, w: World, u: World, command: ClientCommand, host: string, newId: string)
    requires Valid(detail, w) && Sendable(detail, w, command) && Storable(w, command, host, newId)
    requires UnderWay(detail, w, u, command, Packet(host, w.paired[host], command))
    ensures var deliver := Deliver(Packet(host, w.paired[host], command), newId);
            var answer := Answer(command, host, w.paired[host], newId);
            var delivered := Step(detail, u, deliver);
            Enabled(u, deliver) && Enabled(delivered, answer) &&
            GotThrough(Step(detail, delivered, answer), command, host, newId)
  {
    FreshKeyIsNew(w, host, w.paired[host], command.IdempotencyKey().value);
    DeliveredMakesItsRow(detail, u, command, host, newId);
    AnsweredLeavesTheOutbox(detail, Step(detail, u, Deliver(Packet(host, w.paired[host], command), newId)), command,
                            host, newId);
  }

  /** From any state of the path: a task command that the user sends, and that is
      transmitted, delivered and answered, has its row on the host, a create in a
      trusted workspace runs, and the outbox holds it no more. All four may happen. */
  lemma CommandGetsThrough(detail: Detail, w: World, command: ClientCommand, at: int, host: string, newId: string)
    requires Valid(detail, w) && Sendable(detail, w, command) && Storable(w, command, host, newId)
    ensures var packet := Packet(host, w.paired[host], command);
            var exchange := [UserSends(command, "", at, true), Transmit(packet), Deliver(packet, newId),
                             Answer(command, host, packet.device, newId)];
            Possible(detail, w, exchange) && GotThrough(Run(detail, w, exchange), command, host, newId)
  {
    var packet := Packet(host, w.paired[host], command);
    var send, transmit, deliver := UserSends(command, "", at, true), Transmit(packet), Deliver(packet, newId);
    var answer := Answer(command, host, packet.device, newId);
    CommandIsUnderWay(detail, w, command, at, packet);
    var sent := Step(detail, w, send);
    var underWay := Step(detail, sent, transmit);
    ArrivesAndIsAnswered(detail, w, underWay, command, host, newId);
    FourSteps(detail, w, [send, transmit, deliver, answer], sent, underWay, Step(detail, underWay, deliver));
  }

  // -------------------------------------------------------- cancels and retries

  lemma DeliveredSteps(detail: Detail, w: World, packet: Packet, newId: string, event: TC.Event)
    requires packet.host in w.hosts && AsBridgeEvent(packet, newId) == Some(event)
    ensures Step(detail, w, Deliver(packet, newId)).hosts ==
            w.hosts[packet.host := TC.Step(w.hosts[packet.host], event)]
  {
  }

  /** A cancel that is delivered cancels the queued row it names, by id or by the key
      of the device that sent it, and changes no other row. */
  lemma CancelGetsThrough(detail: Detail, w: World, packet: Packet, newId: string, id: string)
    requires Valid(detail, w) && Enabled(w, Deliver(packet, newId)) && packet.command.Type() == "task.command.cancel"
    requires packet.command.IdempotencyKey().Some? && id in w.hosts[packet.host].rows
    requires var target, row := Text(packet.command.values, "commandId"), w.hosts[packet.host].rows[id];
             if target.Some? then target.value == id
             else row.key == StorageKey(packet.device, packet.command.IdempotencyKey().value)
    ensures var v, b := Step(detail, w, Deliver(packet, newId)), w.hosts[packet.host];
            && packet.host in v.hosts && v.hosts[packet.host].rows.Keys == b.rows.Keys
            && v.hosts[packet.host].rows[id] ==
               (if b.rows[id].state.Queued? then b.rows[id].(state := TC.Canceled) else b.rows[id])
            && forall x :: x in b.rows && x != id ==> v.hosts[packet.host].rows[x] == b.rows[x]
  {
    var b := w.hosts[packet.host];
    assert HostOk(w.wire, w.minted, w.foreign, w.appended, packet.host, b);
    RetryAndCancelAreRead(packet, newId);
    var target, key := Text(packet.command.values, "commandId"),
                       StorageKey(packet.device, packet.command.IdempotencyKey().value);
    DeliveredSteps(detail, w, packet, newId, TC.Cancel(target, key));
    CancelOnBridge(b, target, key, id);
  }

  lemma CancelOnBridge(b: TC.Bridge, target: Option<string>, key: string, id: string)
    requires TC.Valid(b) && id in b.rows && (if target.Some? then target.value == id else b.rows[id].key == key)
    ensures var c := TC.Step(b, TC.Cancel(target, key));
            && c.rows.Keys == b.rows.Keys
            && c.rows[id] == (if b.rows[id].state.Queued? then b.rows[id].(state := TC.Canceled) else b.rows[id])
            && forall x :: x in b.rows && x != id ==> c.rows[x] == b.rows[x]
  {
    Outcomes.CancelCancelsExactlyTheQueued(b, target, key, id);
  }

  /** A retry that is delivered admits the failed row it names again, if that is still
      valid: it runs, or waits while its dispatch or session is busy. */
  lemma RetryGetsThrough(detail: Detail, w: World, packet: Packet, newId: string, id: string)
    requires Valid(detail, w) && Enabled(w, Deliver(packet, newId)) && packet.command.Type() == "task.command.retry"
    requires Text(packet.command.values, "commandId") == Some(id) && id in w.hosts[packet.host].rows
    requires var b := w.hosts[packet.host]; b.rows[id].state.Failed? && Outcomes.StillValid(b, b.rows[id])
    ensures var v := Step(detail, w, Deliver(packet, newId));
            packet.host in v.hosts && Outcomes.RunsOrWaits(w.hosts[packet.host], v.hosts[packet.host], id)
  {
    var b := w.hosts[packet.host];
    assert HostOk(w.wire, w.minted, w.foreign, w.appended, packet.host, b);
    RetryAndCancelAreRead(packet, newId);
    DeliveredSteps(detail, w, packet, newId, TC.Retry(id));
    Outcomes.ValidRetryRunsOrWaits(b, id);
  }
}
