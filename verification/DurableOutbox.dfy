/** The phone's durable outbox: an entry is saved before it is sent, resent until
    a matching acknowledgement arrives, and restored after an app restart. */
module DurableOutbox {
  import opened Keys
  import TaskCommands

  datatype Value =
    | Str(text: string)
    | Flag(on: bool)
    | List(items: seq<string>)
    | Obj(fields: map<string, Value>)
    | Other

  function Get(values: map<string, Value>, name: string): Option<Value> {
    if name in values then Some(values[name]) else None
  }

  function Text(values: map<string, Value>, name: string): Option<string> {
    if name in values && values[name].Str? then Some(values[name].text) else None
  }

  datatype ClientCommand = ClientCommand(values: map<string, Value>) {
    function Type(): string {
      var t := Text(values, "type");
      if t.Some? then t.value else ""
    }

    function IdempotencyKey(): Option<string> {
      Text(values, "idempotencyKey")
    }

    function HostId(): Option<string> {
      Text(values, "hostId")
    }
  }

  /** A cancel entry is named by its semantic key, any other by host and key. */
  datatype EntryId = CancelEntry(semanticKey: string) | KeyedEntry(host: string, key: string)

  datatype OutboxEntry = OutboxEntry(
    id: EntryId, semanticKey: string, command: ClientCommand, enqueuedAt: int, lastError: Option<string>)

  const TASK_TYPES := {"task.create", "task.follow_up", "session.message"}
  const REPLACEABLE := {"user.profile.update", "agent.profile.update", "trust.policy.update",
                        "notification.settings.update", "notification.device.register", "feed.dismiss.set"}
  const UNSCOPED := "unscoped"

  predicate IsTask(command: ClientCommand) {
    command.Type() in TASK_TYPES
  }

  // ------------------------------------------------------------- semantic keys

  /** What distinguishes commands of one type is left open: `detail` is any
      function. The type and the host always lead the key. */
  type Detail = ClientCommand -> Option<string>

  const NEXT_LINE := '\U{0085}'

  function TrimmedHost(command: ClientCommand): string {
    var host := command.HostId();
    if host.Some? then TaskCommands.Trimmed(host.value, NEXT_LINE) else ""
  }

  function LocalKey(detail: Detail, command: ClientCommand): string {
    var rest := detail(command);
    if rest.Some? then command.Type() + ":" + rest.value else command.Type()
  }

  function SemanticKey(detail: Detail, command: ClientCommand): string {
    var host := TrimmedHost(command);
    if host == "" then LocalKey(detail, command) else host + ":" + LocalKey(detail, command)
  }

  /** Command types are dotted names; host ids have neither dots nor colons. */
  predicate WellScoped(command: ClientCommand) {
    && ColonFree(command.Type()) && '.' in command.Type()
    && ColonFree(TrimmedHost(command)) && '.' !in TrimmedHost(command)
  }

  lemma LocalKeyStartsWithType(detail: Detail, command: ClientCommand)
    requires ColonFree(command.Type())
    ensures FirstSegment(LocalKey(detail, command)) == command.Type()
  {
    if detail(command).Some? {
      FirstSegmentOfJoin(command.Type(), detail(command).value);
    } else {
      FirstSegmentOfColonFree(command.Type());
    }
  }

  /** Commands that share a semantic key have the same type, so a state-setting
      command never replaces a user-authored one. */
  lemma SameKeySameType(detail: Detail, a: ClientCommand, b: ClientCommand)
    requires WellScoped(a) && WellScoped(b) && SemanticKey(detail, a) == SemanticKey(detail, b)
    ensures a.Type() == b.Type()
  {
    LocalKeyStartsWithType(detail, a);
    LocalKeyStartsWithType(detail, b);
    var hostA, hostB := TrimmedHost(a), TrimmedHost(b);
    FirstSegmentOfJoin(hostA, LocalKey(detail, a));
    FirstSegmentOfJoin(hostB, LocalKey(detail, b));
    if hostA != "" && hostB != "" {
      assert hostA == hostB;
      assert LocalKey(detail, a) == SemanticKey(detail, a)[|hostA| + 1..] == LocalKey(detail, b);
    }
  }

  /** A semantic key begins with the host the command is for, or with the type when
      it is for none. */
  lemma SemanticKeyBeginsWith(detail: Detail, command: ClientCommand)
    requires ColonFree(command.Type()) && ColonFree(TrimmedHost(command))
    ensures FirstSegment(SemanticKey(detail, command)) ==
            if TrimmedHost(command) == "" then command.Type() else TrimmedHost(command)
  {
    LocalKeyStartsWithType(detail, command);
    FirstSegmentOfJoin(TrimmedHost(command), LocalKey(detail, command));
  }

  predicate IsPlainHost(host: string) {
    && host != "" && ':' !in host && '.' !in host
    && forall i :: 0 <= i < |host| ==> !TaskCommands.IsSpace(host[i]) && host[i] != NEXT_LINE
  }

  /** Commands for different hosts, or for one and for none, never share a semantic
      key: what is set on one host replaces nothing that is set on another. */
  lemma HostsDoNotShareKeys(detail: Detail, a: ClientCommand, b: ClientCommand)
    requires a.HostId().Some? && IsPlainHost(a.HostId().value) && ColonFree(a.Type())
    requires b.HostId().Some? ==> IsPlainHost(b.HostId().value)
    requires a.HostId() != b.HostId() && ColonFree(b.Type()) && '.' in b.Type()
    ensures SemanticKey(detail, a) != SemanticKey(detail, b)
  {
    assert TrimmedHost(a) == a.HostId().value;
    FirstSegmentOfJoin(TrimmedHost(a), LocalKey(detail, a));
    if b.HostId().Some? {
      assert TrimmedHost(b) == b.HostId().value;
      FirstSegmentOfJoin(TrimmedHost(b), LocalKey(detail, b));
    } else {
      LocalKeyStartsWithType(detail, b);
    }
  }

  // ----------------------------------------------------------- acknowledgement

  datatype ServerMessage =
    | TaskCommandUpdated(id: string, key: string)
    | MaterialUpdated(materialId: string)
    | TaskCommandCancelResult(commandId: Option<string>, idempotencyKey: Option<string>)
    | FeedDismissedUpdated(itemId: Option<string>)
    | SessionSnapshot(dismissedFeedItemIds: set<string>)
    | FeedSeenUpdated(postId: Option<string>)
    | TimelineSeenUpdated(sessionId: Option<string>, itemId: Option<string>)
    | UserProfileUpdated
    | ProjectUpdated(projectId: string)
    | TrustPolicyUpdated(policyProjectId: string)
    | NotificationSettingsUpdated
    | NotificationDeviceUpdated(registered: bool)
    | ActionResult(actionId: Option<string>)
    | Unrelated

  predicate MaterialMatches(command: ClientCommand, materialId: string) {
    && command.Type() == "material.register"
    && "material" in command.values && command.values["material"].Obj?
    && Text(command.values["material"].fields, "id") == Some(materialId)
  }

  predicate RowMatches(command: ClientCommand, id: string, key: string) {
    if command.Type() == "task.command.cancel" then false
    else if command.Type() == "task.command.retry" && Text(command.values, "commandId").Some? then
      Text(command.values, "commandId") == Some(id)
    else
      var own := command.IdempotencyKey();
      own == Some(key) || HasSuffix(key, ":" + if own.Some? then own.value else "")
  }

  /** Whether a message from `host` confirms the entry. */
  predicate Confirms(entry: OutboxEntry, message: ServerMessage, host: string) {
    var command := entry.command;
    (command.HostId().Some? ==> command.HostId().value == host) &&
    match message
    case TaskCommandUpdated(id, key) => RowMatches(command, id, key)
    case MaterialUpdated(materialId) => MaterialMatches(command, materialId)
    case TaskCommandCancelResult(commandId, key) =>
      && command.Type() == "task.command.cancel"
      && (if Text(command.values, "commandId").Some? then Text(command.values, "commandId") == commandId
          else command.IdempotencyKey().Some? && command.IdempotencyKey() == key)
    case FeedDismissedUpdated(itemId) =>
      && Text(command.values, "itemId").Some? && command.Type() in {"feed.dismiss", "feed.dismiss.set"}
      && Get(command.values, "dismissed") != Some(Flag(false)) && Text(command.values, "itemId") == itemId
    case SessionSnapshot(dismissed) =>
      && command.Type() == "feed.dismiss.set" && Get(command.values, "dismissed") == Some(Flag(false))
      && Text(command.values, "itemId").Some? && Text(command.values, "itemId").value !in dismissed
    case FeedSeenUpdated(postId) =>
      Text(command.values, "postId").Some? && command.Type() == "feed.seen" && Text(command.values, "postId") == postId
    case TimelineSeenUpdated(sessionId, itemId) =>
      && Text(command.values, "sessionId").Some? && Text(command.values, "itemId").Some?
      && command.Type() == "task.timeline.seen"
      && Text(command.values, "sessionId") == sessionId && Text(command.values, "itemId") == itemId
    case UserProfileUpdated => command.Type() == "user.profile.update"
    case ProjectUpdated(projectId) =>
      command.Type() == "agent.profile.update" && Text(command.values, "projectId") == Some(projectId)
    case TrustPolicyUpdated(projectId) =>
      command.Type() == "trust.policy.update" && Text(command.values, "projectId") == Some(projectId)
    case NotificationSettingsUpdated => command.Type() == "notification.settings.update"
    case NotificationDeviceUpdated(registered) =>
      command.Type() == (if registered then "notification.device.register" else "notification.device.unregister")
    case ActionResult(actionId) =>
      Text(command.values, "actionId").Some? && command.Type() == "action.decide" &&
      Text(command.values, "actionId") == actionId
    case Unrelated => false
  }

  /** A task entry is confirmed by exactly one thing: an update, from its host,
      of a row whose storage key carries its own idempotency key. */
  lemma TaskConfirmedOnlyByItsRow(entry: OutboxEntry, message: ServerMessage, host: string)
    requires IsTask(entry.command) && entry.command.IdempotencyKey().Some?
    requires ColonFree(entry.command.IdempotencyKey().value)
    requires message.TaskCommandUpdated? ==> ':' in message.key
    ensures Confirms(entry, message, host) <==>
            && message.TaskCommandUpdated? && LastSegment(message.key) == entry.command.IdempotencyKey().value
            && (entry.command.HostId().Some? ==> entry.command.HostId().value == host)
  {
    if message.TaskCommandUpdated? {
      SuffixNamesLastSegment(message.key, entry.command.IdempotencyKey().value);
    }
  }

  // --------------------------------------------------------- outbox operations

  /** `disk` is the saved copy that a restarted app reads back. */
  datatype Phone = Phone(memory: seq<OutboxEntry>, disk: seq<OutboxEntry>)

  /** `transmit` is the command handed to the channel, if any. */
  datatype Sending = Sending(phone: Phone, ok: bool, transmit: Option<ClientCommand>)

  function IndexOfKey(entries: seq<OutboxEntry>, key: string): (i: nat)
    ensures i <= |entries|
    ensures i < |entries| ==> entries[i].semanticKey == key
    ensures forall j :: 0 <= j < i ==> entries[j].semanticKey != key
  {
    if entries == [] || entries[0].semanticKey == key then 0 else 1 + IndexOfKey(entries[1..], key)
  }

  function Without(entries: seq<OutboxEntry>, ids: set<EntryId>): seq<OutboxEntry> {
    if entries == [] then []
    else if entries[0].id in ids then Without(entries[1..], ids)
    else [entries[0]] + Without(entries[1..], ids)
  }

  function Saved(memory: seq<OutboxEntry>, disk: seq<OutboxEntry>, ok: bool): Phone {
    Phone(memory, if ok then memory else disk)
  }

  function NewEntry(detail: Detail, command: ClientCommand, freshKey: string, at: int): OutboxEntry {
    var key := SemanticKey(detail, command);
    var host := if command.HostId().Some? then command.HostId().value else UNSCOPED;
    var own := if command.IdempotencyKey().Some? then command.IdempotencyKey().value else freshKey;
    OutboxEntry(if command.Type() == "task.command.cancel" then CancelEntry(key)
                else KeyedEntry(host, own), key, command, at, None)
  }

  function Send(detail: Detail, phone: Phone, command: ClientCommand, freshKey: string, at: int, saved: bool): Sending {
    var i := IndexOfKey(phone.memory, SemanticKey(detail, command));
    if i < |phone.memory| then
      if command.Type() in REPLACEABLE then
        var memory := phone.memory[i := phone.memory[i].(command := command, enqueuedAt := at, lastError := None)];
        Sending(Saved(memory, phone.disk, saved), saved, if saved then Some(command) else None)
      else Sending(phone, true, Some(phone.memory[i].command))
    else
      var entry := NewEntry(detail, command, freshKey, at);
      if saved then Sending(Saved(phone.memory + [entry], phone.disk, true), true, Some(command))
      else Sending(Phone(Without(phone.memory + [entry], {entry.id}), phone.disk), false, None)
  }

  function Unconfirmed(entries: seq<OutboxEntry>, message: ServerMessage, host: string): seq<OutboxEntry> {
    if entries == [] then []
    else if Confirms(entries[0], message, host) then Unconfirmed(entries[1..], message, host)
    else [entries[0]] + Unconfirmed(entries[1..], message, host)
  }

  function Rejecting(entries: seq<OutboxEntry>, matches: OutboxEntry -> bool): seq<OutboxEntry> {
    if entries == [] then []
    else if matches(entries[0]) then Rejecting(entries[1..], matches)
    else [entries[0]] + Rejecting(entries[1..], matches)
  }

  lemma {:induction false} UnconfirmedRejects(entries: seq<OutboxEntry>, message: ServerMessage, host: string,
                                              matches: OutboxEntry -> bool)
    requires forall e :: matches(e) == Confirms(e, message, host)
    ensures Unconfirmed(entries, message, host) == Rejecting(entries, matches)
  {
    if entries != [] {
      UnconfirmedRejects(entries[1..], message, host, matches);
    }
  }

  function Acknowledged(phone: Phone, message: ServerMessage, host: string, saved: bool): Phone {
    var kept := Unconfirmed(phone.memory, message, host);
    Saved(kept, phone.disk, saved && |kept| != |phone.memory|)
  }

  /** The commands a flush hands to the channel, in outbox order. */
  function Pending(entries: seq<OutboxEntry>, host: Option<string>): seq<ClientCommand> {
    if entries == [] then []
    else if entries[0].lastError.None? && (host.None? || entries[0].command.HostId() == host)
    then [entries[0].command] + Pending(entries[1..], host)
    else Pending(entries[1..], host)
  }

  function WithError(entries: seq<OutboxEntry>, ids: set<EntryId>, error: Option<string>): seq<OutboxEntry> {
    if entries == [] then []
    else [if entries[0].id in ids then entries[0].(lastError := error) else entries[0]] +
         WithError(entries[1..], ids, error)
  }

  function MarkFailed(phone: Phone, ids: set<EntryId>, error: string, saved: bool): Phone {
    var memory := WithError(phone.memory, ids, Some(error));
    Saved(memory, phone.disk, saved && memory != phone.memory)
  }

  function Remove(phone: Phone, ids: set<EntryId>, saved: bool): Phone {
    Saved(Without(phone.memory, ids), phone.disk, saved)
  }

  function RetryEntry(phone: Phone, id: EntryId, saved: bool): Phone {
    Saved(WithError(phone.memory, {id}, None), phone.disk, saved)
  }

  function AppRestart(phone: Phone): Phone {
    Phone(phone.disk, phone.disk)
  }

  lemma {:induction false} FewerOrTheSame(entries: seq<OutboxEntry>, message: ServerMessage, host: string)
    ensures |Unconfirmed(entries, message, host)| <= |entries|
    ensures |Unconfirmed(entries, message, host)| == |entries| ==> Unconfirmed(entries, message, host) == entries
  {
    if entries != [] {
      FewerOrTheSame(entries[1..], message, host);
    }
  }

  /** As long as saving works, a restart of the app loses nothing that a send, an
      answer, a failure, a removal or a retry has done. */
  lemma RestartLosesNothing(detail: Detail, phone: Phone, command: ClientCommand, freshKey: string, at: int,
                            message: ServerMessage, host: string, ids: set<EntryId>, error: string, id: EntryId)
    requires AppRestart(phone) == phone
    ensures var sent := Send(detail, phone, command, freshKey, at, true).phone; AppRestart(sent) == sent
    ensures var kept := Acknowledged(phone, message, host, true); AppRestart(kept) == kept
    ensures var marked := MarkFailed(phone, ids, error, true); AppRestart(marked) == marked
    ensures var left := Remove(phone, ids, true); AppRestart(left) == left
    ensures var retried := RetryEntry(phone, id, true); AppRestart(retried) == retried
  {
    FewerOrTheSame(phone.memory, message, host);
  }

  predicate InScope(entry: OutboxEntry, host: string) {
    entry.command.HostId().Some? ==> entry.command.HostId().value == host
  }

  /** The key of an error names an entry by its own key, bare or behind a device prefix. */
  predicate Named(entry: OutboxEntry, key: string, host: string) {
    var own := entry.command.IdempotencyKey();
    InScope(entry, host) && own.Some? && (own.value == key || HasSuffix(key, ":" + own.value))
  }

  /** A setting of a project that the host no longer has. */
  predicate Stale(entry: OutboxEntry, host: string, projects: set<string>) {
    && InScope(entry, host) && entry.command.Type() in {"agent.profile.update", "trust.policy.update"}
    && Text(entry.command.values, "projectId").Some?
    && Text(entry.command.values, "projectId").value !in projects
  }

  /** Which entries a Bridge error marks: those its idempotency key names, or
      the only entry about a project the host no longer has. */
  function FailureMatches(entries: seq<OutboxEntry>, projectNotFound: bool, key: Option<string>, host: string,
                          projects: set<string>): set<EntryId> {
    if key.Some? && key.value != "" then
      set e | e in entries && Named(e, key.value, host) :: e.id
    else if !projectNotFound then {}
    else
      var stale := set i | 0 <= i < |entries| && Stale(entries[i], host, projects);
      if |stale| == 1 then set i | i in stale :: entries[i].id else {}
  }

  predicate Flushes(entry: OutboxEntry, host: Option<string>) {
    entry.lastError.None? && (host.None? || entry.command.HostId() == host)
  }

  /** A flush hands over exactly the commands of the entries that have not
      failed and belong to the host that came online. */
  lemma {:induction false} FlushSendsExactlyTheWaiting(entries: seq<OutboxEntry>, host: Option<string>,
                                                       command: ClientCommand)
    ensures command in Pending(entries, host) <==> exists e :: e in entries && Flushes(e, host) && e.command == command
  {
    if entries != [] {
      FlushSendsExactlyTheWaiting(entries[1..], host, command);
      assert forall e :: e in entries <==> e == entries[0] || e in entries[1..];
      var rest := Pending(entries[1..], host);
      assert command in [entries[0].command] + rest <==> command == entries[0].command || command in rest;
    }
  }

  /** Whatever a successful send hands to the channel is in the saved outbox. */
  lemma SentCommandIsSaved(detail: Detail, phone: Phone, command: ClientCommand, freshKey: string, at: int, saved: bool)
    ensures var sending := Send(detail, phone, command, freshKey, at, saved);
            && (sending.transmit.Some? ==> exists e :: e in sending.phone.memory && e.command == sending.transmit.value)
            && (sending.ok && phone.disk == phone.memory ==> sending.phone.disk == sending.phone.memory)
            && (!sending.ok ==> sending.phone.disk == phone.disk && sending.transmit.None?)
  {
    var sending := Send(detail, phone, command, freshKey, at, saved);
    var i := IndexOfKey(phone.memory, SemanticKey(detail, command));
    if sending.transmit.Some? {
      assert sending.phone.memory[i].command == sending.transmit.value;
    }
  }

  // ------------------------------------------------------------- what a send does

  /** The queued entry of a semantic key. */
  function Held(entries: seq<OutboxEntry>, key: string): Option<OutboxEntry> {
    var i := IndexOfKey(entries, key);
    if i < |entries| then Some(entries[i]) else None
  }

  /** The entry that holds exactly this command and waits to be sent. */
  predicate Holds(entries: seq<OutboxEntry>, key: string, command: ClientCommand) {
    var held := Held(entries, key);
    held.Some? && held.value.command == command && held.value.lastError.None?
  }

  /** A send succeeds exactly when the outbox can be saved or nothing new needs to
      be, and it succeeds exactly when it hands a command to the channel. */
  lemma SendSucceedsExactlyWhen(detail: Detail, phone: Phone, command: ClientCommand, freshKey: string, at: int,
                                saved: bool)
    ensures var sending := Send(detail, phone, command, freshKey, at, saved);
            var queued := Held(phone.memory, SemanticKey(detail, command)).Some?;
            && (sending.ok <==> saved || (queued && command.Type() !in REPLACEABLE))
            && (sending.transmit.Some? <==> sending.ok)
            && (!sending.ok && !queued ==>
                  Held(sending.phone.memory, SemanticKey(detail, command)).None? && sending.phone.disk == phone.disk)
  {
    if !saved && Held(phone.memory, SemanticKey(detail, command)).None? {
      WithoutKeepsAbsence(phone.memory, NewEntry(detail, command, freshKey, at));
    }
  }

  lemma {:induction false} WithoutKeepsAbsence(entries: seq<OutboxEntry>, entry: OutboxEntry)
    requires Held(entries, entry.semanticKey).None?
    ensures Held(Without(entries + [entry], {entry.id}), entry.semanticKey).None?
  {
    if entries == [] {
      assert [entry][1..] == [];
    } else {
      assert (entries + [entry])[1..] == entries[1..] + [entry];
      WithoutKeepsAbsence(entries[1..], entry);
      var rest := Without(entries[1..] + [entry], {entry.id});
      assert ([entries[0]] + rest)[1..] == rest;
    }
  }

  /** The first entry of a key in a list that differs in one place only. */
  lemma {:induction false} HeldAfterUpdate(entries: seq<OutboxEntry>, i: nat, entry: OutboxEntry, key: string)
    requires i < |entries| && i == IndexOfKey(entries, entry.semanticKey)
    ensures Held(entries[i := entry], key) == if key == entry.semanticKey then Some(entry) else Held(entries, key)
  {
    if i > 0 {
      assert entries[i := entry][1..] == entries[1..][i - 1 := entry];
      HeldAfterUpdate(entries[1..], i - 1, entry, key);
    } else {
      assert entries[0 := entry][1..] == entries[1..];
    }
  }

  lemma {:induction false} HeldAfterAppend(entries: seq<OutboxEntry>, entry: OutboxEntry, key: string)
    requires Held(entries, entry.semanticKey).None?
    ensures Held(entries + [entry], key) == if key == entry.semanticKey then Some(entry) else Held(entries, key)
  {
    if entries != [] {
      assert (entries + [entry])[1..] == entries[1..] + [entry];
      HeldAfterAppend(entries[1..], entry, key);
    }
  }

  /** A setting is replaced: a send that can be saved hands over the new command,
      which is then the one queued under its key, in memory and on disk, without an
      error; what is queued under any other key stays as it is. */
  lemma SettingIsReplaced(detail: Detail, phone: Phone, command: ClientCommand, freshKey: string, at: int, key: string)
    requires command.Type() in REPLACEABLE
    ensures var sending := Send(detail, phone, command, freshKey, at, true);
            && sending.ok && sending.transmit == Some(command) && sending.phone.disk == sending.phone.memory
            && Holds(sending.phone.memory, SemanticKey(detail, command), command)
            && (key != SemanticKey(detail, command) ==> Held(sending.phone.memory, key) == Held(phone.memory, key))
            && |sending.phone.memory| ==
               |phone.memory| + if Held(phone.memory, SemanticKey(detail, command)).Some? then 0 else 1
  {
    SendHolds(detail, phone, command, freshKey, at, SemanticKey(detail, command));
    SendHolds(detail, phone, command, freshKey, at, key);
  }

  /** Any other command is queued once: what is queued under its key stays and is
      handed over again; otherwise one entry with the command is added at the end,
      saved, and handed over. */
  lemma OtherCommandIsQueuedOnce(detail: Detail, phone: Phone, command: ClientCommand, freshKey: string, at: int)
    requires command.Type() !in REPLACEABLE
    ensures var sending := Send(detail, phone, command, freshKey, at, true);
            var held := Held(phone.memory, SemanticKey(detail, command));
            && sending.ok && sending.transmit.Some?
            && (held.Some? ==> sending.phone == phone && sending.transmit == Some(held.value.command))
            && (held.None? ==>
                  && |sending.phone.memory| == |phone.memory| + 1 && phone.memory <= sending.phone.memory
                  && Holds(sending.phone.memory, SemanticKey(detail, command), command)
                  && sending.phone.disk == sending.phone.memory && sending.transmit == Some(command))
  {
    SendHolds(detail, phone, command, freshKey, at, SemanticKey(detail, command));
  }

  /** What is queued under a key after a send that can be saved. */
  lemma SendHolds(detail: Detail, phone: Phone, command: ClientCommand, freshKey: string, at: int, key: string)
    ensures var after := Held(Send(detail, phone, command, freshKey, at, true).phone.memory, key);
            var before := Held(phone.memory, key);
            if key != SemanticKey(detail, command) || (before.Some? && command.Type() !in REPLACEABLE)
            then after == before
            else after.Some? && after.value.command == command && after.value.lastError.None?
  {
    var i := IndexOfKey(phone.memory, SemanticKey(detail, command));
    if i < |phone.memory| {
      HeldAfterUpdate(phone.memory, i, phone.memory[i].(command := command, enqueuedAt := at, lastError := None), key);
    } else {
      HeldAfterAppend(phone.memory, NewEntry(detail, command, freshKey, at), key);
    }
  }

  datatype Submitted = Submitted(command: ClientCommand, freshKey: string, at: int)

  function SentAll(detail: Detail, phone: Phone, sends: seq<Submitted>): Phone {
    if sends == [] then phone
    else
      var last := sends[|sends| - 1];
      Send(detail, SentAll(detail, phone, sends[..|sends| - 1]), last.command, last.freshKey, last.at, true).phone
  }

  /** Among the commands sent with a key: the last setting, or the first command
      of any other kind while nothing was queued. */
  function Current(detail: Detail, initially: Option<ClientCommand>, sends: seq<Submitted>,
                   key: string): Option<ClientCommand>
  {
    if sends == [] then initially
    else
      var before := Current(detail, initially, sends[..|sends| - 1], key);
      var last := sends[|sends| - 1].command;
      if SemanticKey(detail, last) == key && (last.Type() in REPLACEABLE || before.None?) then Some(last) else before
  }

  /** After any sends that could be saved the outbox holds, for every key, exactly
      the current command: a setting undone is not sent as it was. */
  lemma {:induction false} OutboxHoldsTheCurrent(detail: Detail, phone: Phone, sends: seq<Submitted>, key: string)
    ensures var initially, held := Held(phone.memory, key), Held(SentAll(detail, phone, sends).memory, key);
            Current(detail, if initially.Some? then Some(initially.value.command) else None, sends, key) ==
            if held.Some? then Some(held.value.command) else None
  {
    if sends != [] {
      var last := sends[|sends| - 1];
      OutboxHoldsTheCurrent(detail, phone, sends[..|sends| - 1], key);
      SendHolds(detail, SentAll(detail, phone, sends[..|sends| - 1]), last.command, last.freshKey, last.at, key);
    }
  }

  lemma {:induction false} WithErrorAt(entries: seq<OutboxEntry>, ids: set<EntryId>, error: Option<string>)
    ensures |WithError(entries, ids, error)| == |entries|
    ensures forall i :: 0 <= i < |entries| ==>
              WithError(entries, ids, error)[i] ==
              if entries[i].id in ids then entries[i].(lastError := error) else entries[i]
  {
    if entries != [] {
      WithErrorAt(entries[1..], ids, error);
    }
  }

  /** Some entry with this id has `own` as its key and is in scope of the host. */
  predicate HasOwnKey(entries: seq<OutboxEntry>, id: EntryId, own: string, host: string) {
    exists e :: e in entries && e.id == id && InScope(e, host) && e.command.IdempotencyKey() == Some(own)
  }

  /** An error with a key, bare or behind a device prefix, marks exactly the entries
      of its host whose own key is its last segment, and those that share an id with one. */
  lemma ErrorMarksExactlyTheNamed(entries: seq<OutboxEntry>, projectNotFound: bool, key: string, host: string,
                                  projects: set<string>, error: string, i: nat)
    requires key != "" && i < |entries|
    requires forall e :: e in entries && e.command.IdempotencyKey().Some? ==>
               ColonFree(e.command.IdempotencyKey().value)
    ensures var marked := WithError(entries, FailureMatches(entries, projectNotFound, Some(key), host, projects),
                                    Some(error));
            && |marked| == |entries|
            && marked[i] == if HasOwnKey(entries, entries[i].id, LastSegment(key), host)
                            then entries[i].(lastError := Some(error)) else entries[i]
  {
    WithErrorAt(entries, FailureMatches(entries, projectNotFound, Some(key), host, projects), Some(error));
    forall e | e in entries
      ensures Named(e, key, host) <==> InScope(e, host) && e.command.IdempotencyKey() == Some(LastSegment(key))
    {
      if e.command.IdempotencyKey().Some? {
        SuffixNamesLastSegment(key, e.command.IdempotencyKey().value);
        if ColonFree(key) {
          LastSegmentOfColonFree(key);
        }
      }
    }
  }

  /** The entry at `j` is the one setting of a project that the host no longer has. */
  predicate OnlyStale(entries: seq<OutboxEntry>, j: nat, host: string, projects: set<string>) {
    && j < |entries| && Stale(entries[j], host, projects)
    && forall k :: 0 <= k < |entries| && k != j ==> !Stale(entries[k], host, projects)
  }

  lemma StaleIsOne(entries: seq<OutboxEntry>, host: string, projects: set<string>, j: nat)
    ensures var stale := set i | 0 <= i < |entries| && Stale(entries[i], host, projects);
            && (OnlyStale(entries, j, host, projects) ==> stale == {j})
            && (|stale| == 1 && j in stale ==> OnlyStale(entries, j, host, projects))
  {
    var stale := set i | 0 <= i < |entries| && Stale(entries[i], host, projects);
    if |stale| == 1 && j in stale {
      assert |stale - {j}| == 0;
      forall k | 0 <= k < |entries| && k != j
        ensures !Stale(entries[k], host, projects)
      {
        assert k !in stale - {j};
      }
    }
  }

  /** An error without a key marks an entry exactly when a project was not found
      and the entry, or one with its id, is the only setting of a missing project. */
  lemma KeylessErrorMarksTheOnlyStale(entries: seq<OutboxEntry>, projectNotFound: bool, key: Option<string>,
                                      host: string, projects: set<string>, id: EntryId)
    requires key.None? || key.value == ""
    ensures id in FailureMatches(entries, projectNotFound, key, host, projects) <==>
            projectNotFound && exists j: nat :: OnlyStale(entries, j, host, projects) && entries[j].id == id
  {
    forall j: nat {
      StaleIsOne(entries, host, projects, j);
    }
  }

  // ------------------------------------------------------- what leaves the outbox

  /** An acknowledgement takes out exactly the entries it confirms, and saves what
      is left when that is anything. */
  lemma AcknowledgedKeepsExactly(phone: Phone, message: ServerMessage, host: string, entry: OutboxEntry)
    ensures var next := Acknowledged(phone, message, host, true);
            && (entry in next.memory <==> entry in phone.memory && !Confirms(entry, message, host))
            && (entry in phone.memory && Confirms(entry, message, host) ==> next.disk == next.memory)
  {
    UnconfirmedHas(phone.memory, message, host, entry);
  }

  lemma {:induction false} UnconfirmedHas(entries: seq<OutboxEntry>, message: ServerMessage, host: string,
                                          entry: OutboxEntry)
    ensures var kept := Unconfirmed(entries, message, host);
            && (entry in kept <==> entry in entries && !Confirms(entry, message, host))
            && |kept| <= |entries| && (entry in entries && Confirms(entry, message, host) ==> |kept| < |entries|)
  {
    if entries != [] {
      UnconfirmedHas(entries[1..], message, host, entry);
      assert entry in entries <==> entry == entries[0] || entry in entries[1..];
    }
  }

  /** The one message that answers a command, by the command's own type. */
  predicate Answers(command: ClientCommand, message: ServerMessage) {
    var t, values := command.Type(), command.values;
    if t == "user.profile.update" then message.UserProfileUpdated?
    else if t == "notification.settings.update" then message.NotificationSettingsUpdated?
    else if t == "notification.device.register" then message == NotificationDeviceUpdated(true)
    else if t == "notification.device.unregister" then message == NotificationDeviceUpdated(false)
    else if t == "agent.profile.update" then
      message.ProjectUpdated? && Text(values, "projectId") == Some(message.projectId)
    else if t == "trust.policy.update" then
      message.TrustPolicyUpdated? && Text(values, "projectId") == Some(message.policyProjectId)
    else if t == "material.register" then message.MaterialUpdated? && MaterialMatches(command, message.materialId)
    else if t == "task.command.cancel" then
      message.TaskCommandCancelResult? &&
      if Text(values, "commandId").Some? then message.commandId == Text(values, "commandId")
      else message.idempotencyKey.Some? && message.idempotencyKey == command.IdempotencyKey()
    else if t == "action.decide" then
      message.ActionResult? && message.actionId.Some? && message.actionId == Text(values, "actionId")
    else if t == "feed.seen" then
      message.FeedSeenUpdated? && message.postId.Some? && message.postId == Text(values, "postId")
    else if t == "task.timeline.seen" then
      && message.TimelineSeenUpdated? && message.sessionId.Some? && message.sessionId == Text(values, "sessionId")
      && message.itemId.Some? && message.itemId == Text(values, "itemId")
    else if t == "feed.dismiss" || t == "feed.dismiss.set" then
      var undone, item := Get(values, "dismissed") == Some(Flag(false)), Text(values, "itemId");
      if !undone then message == FeedDismissedUpdated(item) && item.Some?
      else t == "feed.dismiss.set" && message.SessionSnapshot? && item.Some? &&
           item.value !in message.dismissedFeedItemIds
    else false
  }

  lemma ConfirmsSettings(entry: OutboxEntry, message: ServerMessage, host: string)
    requires message.UserProfileUpdated? || message.ProjectUpdated? || message.TrustPolicyUpdated? ||
             message.NotificationSettingsUpdated? || message.NotificationDeviceUpdated?
    ensures Confirms(entry, message, host) <==> InScope(entry, host) && Answers(entry.command, message)
  {
  }

  lemma ConfirmsFeed(entry: OutboxEntry, message: ServerMessage, host: string)
    requires message.FeedDismissedUpdated? || message.SessionSnapshot? || message.FeedSeenUpdated?
    ensures Confirms(entry, message, host) <==> InScope(entry, host) && Answers(entry.command, message)
  {
  }

  lemma ConfirmsSeen(entry: OutboxEntry, message: ServerMessage, host: string)
    requires message.TimelineSeenUpdated?
    ensures Confirms(entry, message, host) <==> InScope(entry, host) && Answers(entry.command, message)
  {
  }

  lemma ConfirmsOthers(entry: OutboxEntry, message: ServerMessage, host: string)
    requires message.MaterialUpdated? || message.TaskCommandCancelResult? || message.ActionResult?
    ensures Confirms(entry, message, host) <==> InScope(entry, host) && Answers(entry.command, message)
  {
  }

  /** Apart from updates of task rows, an entry is confirmed exactly by the message
      that answers its command: a dismissal by word of its item, an undone one by a
      snapshot without it, and neither by what confirms the other. */
  lemma ConfirmedExactlyByItsAnswer(entry: OutboxEntry, message: ServerMessage, host: string)
    requires !message.TaskCommandUpdated?
    ensures Confirms(entry, message, host) <==> InScope(entry, host) && Answers(entry.command, message)
  {
    match message
    case MaterialUpdated(_) => ConfirmsOthers(entry, message, host);
    case TaskCommandCancelResult(_, _) => ConfirmsOthers(entry, message, host);
    case ActionResult(_) => ConfirmsOthers(entry, message, host);
    case FeedDismissedUpdated(_) => ConfirmsFeed(entry, message, host);
    case SessionSnapshot(_) => ConfirmsFeed(entry, message, host);
    case FeedSeenUpdated(_) => ConfirmsFeed(entry, message, host);
    case TimelineSeenUpdated(_, _) => ConfirmsSeen(entry, message, host);
    case Unrelated =>
    case _ => ConfirmsSettings(entry, message, host);
  }

  /** An update of a task row never confirms a cancel, and confirms a retry exactly
      when it is the row that the retry names. */
  lemma RowConfirmsRetryExactlyWhen(entry: OutboxEntry, id: string, key: string, host: string)
    ensures entry.command.Type() == "task.command.cancel" ==> !Confirms(entry, TaskCommandUpdated(id, key), host)
    ensures entry.command.Type() == "task.command.retry" && Text(entry.command.values, "commandId").Some? ==>
              (Confirms(entry, TaskCommandUpdated(id, key), host) <==>
               InScope(entry, host) && Text(entry.command.values, "commandId") == Some(id))
  {
  }

  /** New entries share an id exactly when both are cancels of one semantic key, or
      neither is a cancel and host and own key are the same. */
  lemma NewEntriesShareIdExactlyWhen(detail: Detail, a: ClientCommand, b: ClientCommand, x: string, y: string, at: int)
    requires a.IdempotencyKey().Some? && b.IdempotencyKey().Some?
    ensures var cancelA, cancelB := a.Type() == "task.command.cancel", b.Type() == "task.command.cancel";
            NewEntry(detail, a, x, at).id == NewEntry(detail, b, y, at).id <==>
            if cancelA || cancelB then cancelA && cancelB && SemanticKey(detail, a) == SemanticKey(detail, b)
            else a.IdempotencyKey() == b.IdempotencyKey() &&
                 (a.HostId() == b.HostId() || {a.HostId(), b.HostId()} == {None, Some(UNSCOPED)})
    ensures a.Type() != "task.command.cancel" ==>
              NewEntry(detail, a, x, at).id == KeyedEntry(if a.HostId().Some? then a.HostId().value else "unscoped",
                                                          a.IdempotencyKey().value)
  {
  }

  /** The user's removal takes out exactly the named entries. */
  lemma {:induction false} RemovedExactly(entries: seq<OutboxEntry>, ids: set<EntryId>, entry: OutboxEntry)
    ensures entry in Without(entries, ids) <==> entry in entries && entry.id !in ids
  {
    if entries != [] {
      RemovedExactly(entries[1..], ids, entry);
      assert entry in entries <==> entry == entries[0] || entry in entries[1..];
    }
  }

  /** An entry that failed is sent again by the next flush once the user retries it. */
  lemma RetriedEntryIsSent(phone: Phone, entry: OutboxEntry, host: Option<string>, saved: bool)
    requires entry in phone.memory && (host.None? || entry.command.HostId() == host)
    ensures entry.command in Pending(RetryEntry(phone, entry.id, saved).memory, host)
  {
    var i :| 0 <= i < |phone.memory| && phone.memory[i] == entry;
    var retried := RetryEntry(phone, entry.id, saved).memory;
    WithErrorAt(phone.memory, {entry.id}, None);
    assert retried[i] in retried && Flushes(retried[i], host) && retried[i].command == entry.command;
    FlushSendsExactlyTheWaiting(retried, host, entry.command);
  }

  /** The outbox owner. `saved` tells whether encoding the outbox succeeds; the
      commands that go to the channel are returned. */
  class AppModel {
    var outbox: seq<OutboxEntry>
    var stored: seq<OutboxEntry>

    ghost function State(): Phone
      reads this
    {
      Phone(outbox, stored)
    }

    /** A fresh process reads the stored outbox. */
    constructor (stored: seq<OutboxEntry>)
      ensures State() == Phone(stored, stored)
    {
      this.outbox, this.stored := stored, stored;
    }

    method PersistOutbox(encodes: bool) returns (ok: bool)
      modifies this`stored
      ensures ok == encodes && stored == if encodes then outbox else old(stored)
    {
      if encodes {
        stored := outbox;
      }
      ok := encodes;
    }

    method FirstIndex(key: string) returns (i: nat)
      ensures i == IndexOfKey(outbox, key)
    {
      i := 0;
      while i < |outbox| && outbox[i].semanticKey != key
        invariant i <= |outbox|
        invariant i + IndexOfKey(outbox[i..], key) == IndexOfKey(outbox, key)
      {
        assert outbox[i..][1..] == outbox[i + 1..];
        i := i + 1;
      }
    }

    method RemoveAll(ids: set<EntryId>)
      modifies this`outbox
      ensures outbox == Without(old(outbox), ids)
    {
      var kept, i := [], 0;
      while i < |outbox|
        invariant i <= |outbox| && outbox == old(outbox)
        invariant kept + Without(outbox[i..], ids) == Without(outbox, ids)
      {
        assert outbox[i..][1..] == outbox[i + 1..];
        if outbox[i].id !in ids {
          kept := kept + [outbox[i]];
        }
        i := i + 1;
      }
      outbox := kept;
    }

    method SendDurable(detail: Detail, command: ClientCommand, freshKey: string, at: int, encodes: bool)
      returns (ok: bool, transmit: Option<ClientCommand>)
      modifies this
      ensures Sending(State(), ok, transmit) == Send(detail, old(State()), command, freshKey, at, encodes)
    {
      var i := FirstIndex(SemanticKey(detail, command));
      if i < |outbox| {
        if command.Type() in REPLACEABLE {
          outbox := outbox[i := outbox[i].(command := command, enqueuedAt := at, lastError := None)];
          ok := PersistOutbox(encodes);
          return ok, if ok then Some(command) else None;
        }
        return true, Some(outbox[i].command);
      }
      var entry := NewEntry(detail, command, freshKey, at);
      outbox := outbox + [entry];
      ok := PersistOutbox(encodes);
      if !ok {
        RemoveAll({entry.id});
        return false, None;
      }
      transmit := Some(command);
    }

    method FlushOutbox(connected: bool, host: Option<string>) returns (sent: seq<ClientCommand>)
      ensures sent == if connected then Pending(outbox, host) else []
    {
      sent := [];
      if !connected {
        return;
      }
      var i := 0;
      while i < |outbox|
        invariant i <= |outbox|
        invariant sent + Pending(outbox[i..], host) == Pending(outbox, host)
      {
        assert outbox[i..][1..] == outbox[i + 1..];
        if outbox[i].lastError.None? && (host.None? || outbox[i].command.HostId() == host) {
          sent := sent + [outbox[i].command];
        }
        i := i + 1;
      }
    }

    method RemoveWhere(matches: OutboxEntry -> bool)
      modifies this`outbox
      ensures outbox == Rejecting(old(outbox), matches)
    {
      var kept, i := [], 0;
      while i < |outbox|
        invariant i <= |outbox| && outbox == old(outbox)
        invariant kept + Rejecting(outbox[i..], matches) == Rejecting(outbox, matches)
      {
        assert outbox[i..][1..] == outbox[i + 1..];
        if !matches(outbox[i]) {
          kept := kept + [outbox[i]];
        }
        i := i + 1;
      }
      outbox := kept;
    }

    method Acknowledge(message: ServerMessage, host: string, encodes: bool)
      modifies this
      ensures State() == Acknowledged(old(State()), message, host, encodes)
    {
      var previousCount := |outbox|;
      var confirms := (entry: OutboxEntry) => Confirms(entry, message, host);
      UnconfirmedRejects(outbox, message, host, confirms);
      RemoveWhere(confirms);
      if |outbox| != previousCount {
        var ok := PersistOutbox(encodes);
      }
    }

    method MarkEach(ids: set<EntryId>, error: string) returns (changed: bool)
      modifies this`outbox
      ensures outbox == WithError(old(outbox), ids, Some(error)) && (changed <==> outbox != old(outbox))
    {
      changed := false;
      var i := 0;
      WithErrorAt(outbox, ids, Some(error));
      ghost var before, target := outbox, WithError(outbox, ids, Some(error));
      while i < |outbox|
        invariant i <= |outbox| && |outbox| == |before| == |target|
        invariant forall k :: 0 <= k < |before| ==> outbox[k] == if k < i then target[k] else before[k]
        invariant changed <==> exists k :: 0 <= k < i && target[k] != before[k]
      {
        if outbox[i].id in ids && outbox[i].lastError != Some(error) {
          outbox := outbox[i := outbox[i].(lastError := Some(error))];
          changed := true;
        }
        i := i + 1;
      }
      assert outbox == target;
    }

    /** Says whether the error was an entry's. */
    method MarkOutboxFailed(projectNotFound: bool, key: Option<string>, host: string, projects: set<string>,
                            error: string, encodes: bool) returns (matched: bool)
      modifies this
      ensures var ids := FailureMatches(old(outbox), projectNotFound, key, host, projects);
              matched == (ids != {}) && State() == MarkFailed(old(State()), ids, error, encodes)
    {
      var ids := FailureMatches(outbox, projectNotFound, key, host, projects);
      if ids == {} {
        WithErrorAt(outbox, ids, Some(error));
        assert WithError(outbox, ids, Some(error)) == outbox;
        return false;
      }
      var changed := MarkEach(ids, error);
      if changed {
        var ok := PersistOutbox(encodes);
      }
      matched := true;
    }

    method RemoveOutboxEntries(ids: set<EntryId>, encodes: bool)
      modifies this
      ensures State() == Remove(old(State()), ids, encodes)
    {
      RemoveAll(ids);
      var ok := PersistOutbox(encodes);
    }
  }
}
