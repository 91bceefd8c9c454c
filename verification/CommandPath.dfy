/** The whole command path as one step system: the phone's outbox, a network that
    may lose, delay, reorder and repeat whatever was ever sent, and the Bridges.
    Every interleaving of user actions, deliveries, acknowledgements, app and
    Bridge restarts and re-pairings is a run. */
module CommandPath {
  import opened Keys
  import TC = TaskCommands
  import opened DurableOutbox

  /** A command under way to `host`, authenticated as `device`. */
  datatype Packet = Packet(host: string, device: string, command: ClientCommand)

  /** `minted` are the keys this phone gave to task commands, `foreign` all other
      keys; `appended` maps the key of each appended task command to it, and
      `dropped` are those the user removed. `paired` gives the device id the
      phone currently holds for each host. */
  datatype World = World(
    phone: Phone, wire: set<Packet>, hosts: map<string, TC.Bridge>, paired: map<string, string>,
    minted: set<string>, foreign: set<string>, appended: map<string, ClientCommand>, dropped: set<string>)

  datatype Event =
    | UserSends(command: ClientCommand, freshKey: string, at: int, saved: bool)
    | Transmit(packet: Packet)
    | Deliver(packet: Packet, newId: string)
    | AckArrives(host: string, message: ServerMessage, saved: bool)
    | UserRemoves(ids: set<EntryId>, saved: bool)
    | UserRetries(id: EntryId, saved: bool)
    | ErrorArrives(ids: set<EntryId>, error: string, saved: bool)
    | PhoneRestarts
    | BridgeSteps(host: string, event: TC.Event, device: string, key: string)
    | RePair(host: string, device: string)

  predicate Reaches(command: ClientCommand, host: string) {
    command.HostId().Some? ==> command.HostId().value == host
  }

  function OwnKey(command: ClientCommand, freshKey: string): string {
    if command.IdempotencyKey().Some? then command.IdempotencyKey().value else freshKey
  }

  /** How a Bridge handles a command from `device`; commands without an effect on
      the command table are not followed further. */
  function AsBridgeEvent(packet: Packet, newId: string): Option<TC.Event> {
    var values := packet.command.values;
    var own, text := Text(values, "idempotencyKey"), Text(values, "text");
    var materials := if Get(values, "materialIds").Some? && values["materialIds"].List? then values["materialIds"].items
                     else [];
    match packet.command.Type()
    case "task.create" =>
      var workspace := Text(values, "workspaceId");
      if own.None? || text.None? || workspace.None? then None
      else Some(TC.Create(newId, StorageKey(packet.device, own.value), workspace.value, text.value, materials))
    case "task.follow_up" => FollowUpEvent(packet, newId, own, text, materials)
    case "session.message" => FollowUpEvent(packet, newId, own, text, materials)
    case "task.command.retry" =>
      var id := Text(values, "commandId");
      if id.None? then None else Some(TC.Retry(id.value))
    case "task.command.cancel" =>
      Some(TC.Cancel(Text(values, "commandId"), StorageKey(packet.device, if own.Some? then own.value else "")))
    case _ => None
  }

  function FollowUpEvent(packet: Packet, newId: string, own: Option<string>, text: Option<string>,
                         materials: seq<string>): Option<TC.Event>
  {
    var session := Text(packet.command.values, "sessionId");
    if own.None? || text.None? || session.None? then None
    else Some(TC.FollowUp(newId, StorageKey(packet.device, own.value), session.value, text.value, materials))
  }

  predicate InsertsRow(event: TC.Event) {
    event.Create? || event.FollowUp?
  }

  /** What the environment may do next. Idempotency keys are fresh and free of
      colons; only what is in the outbox is sent, only what was sent arrives,
      and an update names a row its host has. */
  ghost predicate Enabled(w: World, e: Event) {
    match e
    case UserSends(command, freshKey, _, _) =>
      && WellScoped(command)
      && (if IsTask(command) then
            command.IdempotencyKey().Some? && ColonFree(OwnKey(command, freshKey)) &&
            OwnKey(command, freshKey) !in w.minted + w.foreign
          else if command.Type() == "task.command.cancel" then true
          else OwnKey(command, freshKey) !in w.minted)
    case Transmit(packet) =>
      && packet.host in w.paired && packet.device == w.paired[packet.host] && Reaches(packet.command, packet.host)
      && exists entry :: entry in w.phone.memory && entry.command == packet.command
    case Deliver(packet, _) => packet in w.wire && packet.host in w.hosts
    case AckArrives(host, message, _) =>
      message.TaskCommandUpdated? ==>
        host in w.hosts && message.id in w.hosts[host].rows && w.hosts[host].rows[message.id].key == message.key
    case BridgeSteps(host, event, device, key) =>
      host in w.hosts &&
      (InsertsRow(event) ==> event.key == StorageKey(device, key) && ColonFree(key) && key !in w.minted)
    case RePair(_, _) => true
    case _ => true
  }

  function DroppedKeys(entries: seq<OutboxEntry>, ids: set<EntryId>): set<string> {
    set e | e in entries && e.id in ids && IsTask(e.command) && e.command.IdempotencyKey().Some? ::
      e.command.IdempotencyKey().value
  }

  function Step(detail: Detail, w: World, e: Event): World {
    match e
    case UserSends(command, freshKey, at, saved) =>
      var sending := Send(detail, w.phone, command, freshKey, at, saved);
      var own := OwnKey(command, freshKey);
      if IsTask(command) then
        var appends := IndexOfKey(w.phone.memory, SemanticKey(detail, command)) == |w.phone.memory| && sending.ok;
        w.(phone := sending.phone, minted := w.minted + {own},
        appended := if appends then w.appended[own := command] else w.appended)
      else w.(phone := sending.phone,
              foreign := if command.Type() == "task.command.cancel" then w.foreign else w.foreign + {own})
    case Transmit(packet) => w.(wire := w.wire + {packet})
    case Deliver(packet, newId) =>
      var event := AsBridgeEvent(packet, newId);
      if packet.host !in w.hosts || event.None? then w
      else w.(hosts := w.hosts[packet.host := TC.Step(w.hosts[packet.host], event.value)])
    case AckArrives(host, message, saved) => w.(phone := Acknowledged(w.phone, message, host, saved))
    case UserRemoves(ids, saved) =>
      w.(phone := Remove(w.phone, ids, saved), dropped := w.dropped + DroppedKeys(w.phone.memory, ids))
    case UserRetries(id, saved) => w.(phone := RetryEntry(w.phone, id, saved))
    case ErrorArrives(ids, error, saved) => w.(phone := MarkFailed(w.phone, ids, error, saved))
    case PhoneRestarts => w.(phone := AppRestart(w.phone))
    case BridgeSteps(host, event, device, key) =>
      if host !in w.hosts then w
      else w.(hosts := w.hosts[host := TC.Step(w.hosts[host], event)],
              foreign := if InsertsRow(event) then w.foreign + {key} else w.foreign)
    case RePair(host, device) => w.(paired := w.paired[host := device])
  }

  function Run(detail: Detail, w: World, events: seq<Event>): World
    decreases |events|
  {
    if events == [] then w else Run(detail, Step(detail, w, events[0]), events[1..])
  }

  ghost predicate Possible(detail: Detail, w: World, events: seq<Event>)
    decreases |events|
  {
    events == [] || (Enabled(w, events[0]) && Possible(detail, Step(detail, w, events[0]), events[1..]))
  }

  function Start(names: set<string>, paired: map<string, string>): World {
    World(Phone([], []), {}, map host | host in names :: TC.EMPTY, paired, {}, {}, map[], {})
  }

  // --------------------------------------------------------------- invariants

  ghost predicate DistinctKeys(entries: seq<OutboxEntry>) {
    forall i, j :: 0 <= i < j < |entries| ==> entries[i].semanticKey != entries[j].semanticKey
  }

  /** A task entry still holds the command that was appended under its key. */
  ghost predicate EntryOk(detail: Detail, foreign: set<string>, appended: map<string, ClientCommand>,
                          entry: OutboxEntry)
  {
    && WellScoped(entry.command) && entry.semanticKey == SemanticKey(detail, entry.command)
    && if IsTask(entry.command) then
         && entry.id.KeyedEntry? && entry.command.IdempotencyKey() == Some(entry.id.key)
         && entry.id.key in appended && appended[entry.id.key] == entry.command
       else entry.id.KeyedEntry? ==> entry.id.key in foreign
  }

  ghost predicate EntriesOk(detail: Detail, foreign: set<string>, appended: map<string, ClientCommand>,
                            entries: seq<OutboxEntry>)
  {
    DistinctKeys(entries) && forall entry :: entry in entries ==> EntryOk(detail, foreign, appended, entry)
  }

  predicate PacketOk(appended: map<string, ClientCommand>, packet: Packet) {
    IsTask(packet.command) ==>
      && packet.command.IdempotencyKey().Some?
      && packet.command.IdempotencyKey().value in appended
      && appended[packet.command.IdempotencyKey().value] == packet.command
      && Reaches(packet.command, packet.host)
  }

  ghost predicate WireOk(wire: set<Packet>, appended: map<string, ClientCommand>) {
    forall packet :: packet in wire ==> PacketOk(appended, packet)
  }

  function DeviceOf(key: string): string {
    if |LastSegment(key)| < |key| then key[..|key| - |LastSegment(key)| - 1] else ""
  }

  /** A row under one of the phone's keys carries that command's text and came
      from a packet the phone sent to that host. */
  predicate RowOk(wire: set<Packet>, minted: set<string>, foreign: set<string>, appended: map<string, ClientCommand>,
                  host: string, row: TC.TaskCommand)
  {
    var key := LastSegment(row.key);
    && ':' in row.key && row.key == StorageKey(DeviceOf(row.key), key)
    && if key in minted then
         && key in appended && Packet(host, DeviceOf(row.key), appended[key]) in wire
         && row.kind == (if appended[key].Type() == "task.create" then TC.CreateTask else TC.FollowUpTask)
         && Text(appended[key].values, "text").Some? && row.text == TC.Trim(Text(appended[key].values, "text").value)
       else key in foreign
  }

  ghost predicate HostOk(wire: set<Packet>, minted: set<string>, foreign: set<string>,
                         appended: map<string, ClientCommand>, host: string, bridge: TC.Bridge)
  {
    TC.Valid(bridge) && forall id :: id in bridge.rows ==> RowOk(wire, minted, foreign, appended, host, bridge.rows[id])
  }

  ghost predicate HostsOk(w: World) {
    forall host :: host in w.hosts ==> HostOk(w.wire, w.minted, w.foreign, w.appended, host, w.hosts[host])
  }

  predicate IsEntryFor(entry: OutboxEntry, key: string) {
    IsTask(entry.command) && entry.command.IdempotencyKey() == Some(key)
  }

  predicate InOutbox(entries: seq<OutboxEntry>, key: string) {
    exists entry :: entry in entries && IsEntryFor(entry, key)
  }

  ghost predicate HasRow(hosts: map<string, TC.Bridge>, key: string) {
    exists host, id :: host in hosts && id in hosts[host].rows && LastSegment(hosts[host].rows[id].key) == key
  }

  /** Not lost: dropped by the user, still queued in `entries`, or stored. */
  ghost predicate NotLost(dropped: set<string>, hosts: map<string, TC.Bridge>, entries: seq<OutboxEntry>, key: string) {
    key in dropped || InOutbox(entries, key) || HasRow(hosts, key)
  }

  ghost predicate NoneLost(w: World, entries: seq<OutboxEntry>) {
    forall key :: key in w.appended ==> NotLost(w.dropped, w.hosts, entries, key)
  }

  ghost predicate KeysOk(minted: set<string>, foreign: set<string>, appended: map<string, ClientCommand>) {
    && minted !! foreign && appended.Keys <= minted
    && (forall key :: key in minted ==> ColonFree(key))
    && (forall key :: key in appended ==> IsTask(appended[key]) && appended[key].IdempotencyKey() == Some(key))
  }

  ghost predicate PhoneOk(detail: Detail, w: World) {
    && EntriesOk(detail, w.foreign, w.appended, w.phone.memory)
    && EntriesOk(detail, w.foreign, w.appended, w.phone.disk)
    && NoneLost(w, w.phone.memory) && NoneLost(w, w.phone.disk)
  }

  ghost predicate Valid(detail: Detail, w: World) {
    KeysOk(w.minted, w.foreign, w.appended) && HostsOk(w) && WireOk(w.wire, w.appended) && PhoneOk(detail, w)
  }

  // -------------------------------------------------- lemmas about the outbox

  lemma DistinctUnfolds(first: OutboxEntry, rest: seq<OutboxEntry>)
    ensures DistinctKeys([first] + rest) <==>
            DistinctKeys(rest) && forall e :: e in rest ==> e.semanticKey != first.semanticKey
  {
    var all := [first] + rest;
    assert forall i :: 0 <= i < |rest| ==> all[i + 1] == rest[i];
    if DistinctKeys(all) {
      forall i, j | 0 <= i < j < |rest| ensures rest[i].semanticKey != rest[j].semanticKey {
        assert all[i + 1].semanticKey != all[j + 1].semanticKey;
      }
      forall e | e in rest ensures e.semanticKey != first.semanticKey {
        var i :| 0 <= i < |rest| && rest[i] == e;
        assert all[0].semanticKey != all[i + 1].semanticKey;
      }
    }
    if DistinctKeys(rest) && forall e :: e in rest ==> e.semanticKey != first.semanticKey {
      forall i, j | 0 <= i < j < |all| ensures all[i].semanticKey != all[j].semanticKey {
        assert all[j] == rest[j - 1] && all[j] in rest;
        assert i > 0 ==> all[i] == rest[i - 1];
      }
    }
  }

  lemma {:induction false} WithoutHolds(entries: seq<OutboxEntry>, ids: set<EntryId>)
    ensures forall e :: e in Without(entries, ids) <==> e in entries && e.id !in ids
  {
    if entries != [] {
      WithoutHolds(entries[1..], ids);
      assert forall e :: e in entries <==> e == entries[0] || e in entries[1..];
    }
  }

  lemma {:induction false} WithoutMembers(entries: seq<OutboxEntry>, ids: set<EntryId>)
    ensures DistinctKeys(entries) ==> DistinctKeys(Without(entries, ids))
    ensures forall e :: e in Without(entries, ids) <==> e in entries && e.id !in ids
  {
    WithoutHolds(entries, ids);
    if entries != [] {
      var first, rest := entries[0], entries[1..];
      WithoutMembers(rest, ids);
      assert entries == [first] + rest;
      DistinctUnfolds(first, rest);
      DistinctUnfolds(first, Without(rest, ids));
    }
  }

  lemma {:induction false} UnconfirmedHolds(entries: seq<OutboxEntry>, message: ServerMessage, host: string)
    ensures forall e :: e in Unconfirmed(entries, message, host) <==> e in entries && !Confirms(e, message, host)
  {
    if entries != [] {
      UnconfirmedHolds(entries[1..], message, host);
      assert forall e :: e in entries <==> e == entries[0] || e in entries[1..];
    }
  }

  lemma {:induction false} UnconfirmedCounts(entries: seq<OutboxEntry>, message: ServerMessage, host: string)
    ensures |Unconfirmed(entries, message, host)| <= |entries|
    ensures |Unconfirmed(entries, message, host)| == |entries| ==> Unconfirmed(entries, message, host) == entries
  {
    if entries != [] {
      UnconfirmedCounts(entries[1..], message, host);
      assert entries == [entries[0]] + entries[1..];
    }
  }

  lemma {:induction false} UnconfirmedMembers(entries: seq<OutboxEntry>, message: ServerMessage, host: string)
    ensures var kept := Unconfirmed(entries, message, host);
            && (DistinctKeys(entries) ==> DistinctKeys(kept))
            && (forall e :: e in kept <==> e in entries && !Confirms(e, message, host))
            && |kept| <= |entries| && (|kept| == |entries| ==> kept == entries)
  {
    UnconfirmedHolds(entries, message, host);
    UnconfirmedCounts(entries, message, host);
    if entries != [] {
      var first, rest := entries[0], entries[1..];
      UnconfirmedMembers(rest, message, host);
      assert entries == [first] + rest;
      DistinctUnfolds(first, rest);
      DistinctUnfolds(first, Unconfirmed(rest, message, host));
    }
  }

  // -------------------------------------------------------- steps keep Valid

  lemma RemoveKeepsValid(detail: Detail, w: World, ids: set<EntryId>, saved: bool)
    requires Valid(detail, w)
    ensures Valid(detail, Step(detail, w, UserRemoves(ids, saved)))
  {
    var v := Step(detail, w, UserRemoves(ids, saved));
    WithoutMembers(w.phone.memory, ids);
    forall key | key in v.appended ensures NotLost(v.dropped, v.hosts, v.phone.memory, key) {
      assert NotLost(w.dropped, w.hosts, w.phone.memory, key);
      if InOutbox(w.phone.memory, key) && key !in v.dropped {
        var entry :| entry in w.phone.memory && IsEntryFor(entry, key);
        assert entry in v.phone.memory;
      }
    }
    forall key | key in v.appended ensures NotLost(v.dropped, v.hosts, w.phone.disk, key) {
      assert NotLost(w.dropped, w.hosts, w.phone.disk, key);
    }
  }

  lemma AckKeepsValid(detail: Detail, w: World, host: string, message: ServerMessage, saved: bool)
    requires Valid(detail, w) && Enabled(w, AckArrives(host, message, saved))
    ensures Valid(detail, Step(detail, w, AckArrives(host, message, saved)))
  {
    var v := Step(detail, w, AckArrives(host, message, saved));
    UnconfirmedMembers(w.phone.memory, message, host);
    assert message.TaskCommandUpdated? ==>
             RowOk(w.wire, w.minted, w.foreign, w.appended, host, w.hosts[host].rows[message.id]);
    forall key | key in v.appended ensures NotLost(v.dropped, v.hosts, v.phone.memory, key) {
      assert NotLost(w.dropped, w.hosts, w.phone.memory, key);
      if InOutbox(w.phone.memory, key) && !HasRow(w.hosts, key) {
        var entry :| entry in w.phone.memory && IsEntryFor(entry, key);
        TaskConfirmedOnlyByItsRow(entry, message, host);
        assert entry in v.phone.memory;
      }
    }
  }

  lemma MarkedEntriesAreOk(detail: Detail, w: World, entries: seq<OutboxEntry>, ids: set<EntryId>,
                           error: Option<string>)
    requires EntriesOk(detail, w.foreign, w.appended, entries)
    ensures EntriesOk(detail, w.foreign, w.appended, WithError(entries, ids, error))
  {
    var marked := WithError(entries, ids, error);
    WithErrorAt(entries, ids, error);
    forall entry | entry in marked ensures EntryOk(detail, w.foreign, w.appended, entry) {
      var i :| 0 <= i < |marked| && marked[i] == entry;
      assert EntryOk(detail, w.foreign, w.appended, entries[i]);
    }
  }

  lemma MarkedEntriesStay(w: World, entries: seq<OutboxEntry>, ids: set<EntryId>, error: Option<string>)
    requires NoneLost(w, entries)
    ensures NoneLost(w, WithError(entries, ids, error))
  {
    var marked := WithError(entries, ids, error);
    WithErrorAt(entries, ids, error);
    forall key | key in w.appended ensures NotLost(w.dropped, w.hosts, marked, key) {
      assert NotLost(w.dropped, w.hosts, entries, key);
      if InOutbox(entries, key) {
        var entry :| entry in entries && IsEntryFor(entry, key);
        var i :| 0 <= i < |entries| && entries[i] == entry;
        assert IsEntryFor(marked[i], key);
      }
    }
  }

  lemma MarkKeepsValid(detail: Detail, w: World, v: World, ids: set<EntryId>, error: Option<string>)
    requires Valid(detail, w)
    requires v == w.(phone := v.phone) && v.phone.memory == WithError(w.phone.memory, ids, error)
    requires v.phone.disk == v.phone.memory || v.phone.disk == w.phone.disk
    ensures Valid(detail, v)
  {
    MarkedEntriesAreOk(detail, w, w.phone.memory, ids, error);
    MarkedEntriesStay(w, w.phone.memory, ids, error);
    assert NoneLost(w, v.phone.memory) && NoneLost(w, v.phone.disk);
    assert NoneLost(v, v.phone.memory) && NoneLost(v, v.phone.disk) by {
      forall key | key in v.appended
        ensures NotLost(v.dropped, v.hosts, v.phone.memory, key) && NotLost(v.dropped, v.hosts, v.phone.disk, key)
      {
        assert NotLost(w.dropped, w.hosts, v.phone.memory, key) && NotLost(w.dropped, w.hosts, v.phone.disk, key);
      }
    }
  }

  ghost predicate Extends(a: map<string, ClientCommand>, b: map<string, ClientCommand>) {
    forall key :: key in a ==> key in b && b[key] == a[key]
  }

  /** Rows and packets stay right while the books only grow by unused keys. */
  lemma BooksMayGrow(w: World, v: World)
    requires HostsOk(w) && WireOk(w.wire, w.appended)
    requires v.hosts == w.hosts && w.wire <= v.wire && w.foreign <= v.foreign && w.minted <= v.minted &&
             Extends(w.appended, v.appended)
    requires forall key :: key in v.minted ==> key in w.minted || key !in w.foreign
    ensures HostsOk(v) && WireOk(w.wire, v.appended)
  {
    forall host | host in v.hosts ensures HostOk(v.wire, v.minted, v.foreign, v.appended, host, v.hosts[host]) {
      assert HostOk(w.wire, w.minted, w.foreign, w.appended, host, w.hosts[host]);
      forall id | id in v.hosts[host].rows
        ensures RowOk(v.wire, v.minted, v.foreign, v.appended, host, v.hosts[host].rows[id])
      {
        assert RowOk(w.wire, w.minted, w.foreign, w.appended, host, w.hosts[host].rows[id]);
      }
    }
    forall packet | packet in w.wire ensures PacketOk(v.appended, packet) {
      assert PacketOk(w.appended, packet);
    }
  }

  lemma EntriesMayGrow(detail: Detail, w: World, v: World, entries: seq<OutboxEntry>)
    requires EntriesOk(detail, w.foreign, w.appended, entries) && w.foreign <= v.foreign &&
             Extends(w.appended, v.appended)
    ensures EntriesOk(detail, v.foreign, v.appended, entries)
  {
    forall entry | entry in entries ensures EntryOk(detail, v.foreign, v.appended, entry) {
      assert EntryOk(detail, w.foreign, w.appended, entry);
    }
  }

  /** `kept` holds every task entry that `entries` holds. */
  ghost predicate KeepsTasks(entries: seq<OutboxEntry>, kept: seq<OutboxEntry>) {
    forall entry :: entry in entries && IsTask(entry.command) ==> entry in kept
  }

  lemma NoneLostWhenTasksKept(w: World, v: World, entries: seq<OutboxEntry>, kept: seq<OutboxEntry>)
    requires NoneLost(w, entries) && v.hosts == w.hosts && v.dropped == w.dropped
    requires KeepsTasks(entries, kept)
    requires forall key :: key in v.appended ==> key in w.appended || InOutbox(kept, key)
    ensures NoneLost(v, kept)
  {
    forall key | key in v.appended ensures NotLost(v.dropped, v.hosts, kept, key) {
      if key in w.appended {
        assert NotLost(w.dropped, w.hosts, entries, key);
        if InOutbox(entries, key) {
          var entry :| entry in entries && IsEntryFor(entry, key);
          assert entry in kept;
        }
      }
    }
  }

  /** What a phone-side step of a user's send leaves alone. */
  ghost predicate OnlyBooksGrow(w: World, v: World) {
    v.hosts == w.hosts && v.dropped == w.dropped && w.foreign <= v.foreign && Extends(w.appended, v.appended)
  }

  lemma AppendSavedKeepsPhone(detail: Detail, w: World, v: World, entry: OutboxEntry)
    requires PhoneOk(detail, w) && OnlyBooksGrow(w, v)
    requires v.phone == Phone(w.phone.memory + [entry], w.phone.memory + [entry])
    requires EntryOk(detail, v.foreign, v.appended, entry)
    requires forall x :: x in w.phone.memory ==> x.semanticKey != entry.semanticKey
    requires forall key :: key in v.appended ==> key in w.appended || IsEntryFor(entry, key)
    ensures PhoneOk(detail, v)
  {
    var grown := w.phone.memory + [entry];
    EntriesMayGrow(detail, w, v, w.phone.memory);
    assert forall x :: x in grown <==> x in w.phone.memory || x == entry;
    NoneLostWhenTasksKept(w, v, w.phone.memory, grown);
  }

  lemma AppendFailedKeepsPhone(detail: Detail, w: World, v: World, entry: OutboxEntry)
    requires PhoneOk(detail, w) && OnlyBooksGrow(w, v) && v.appended == w.appended
    requires v.phone == Phone(Without(w.phone.memory + [entry], {entry.id}), w.phone.disk)
    requires forall x :: x in w.phone.memory && IsTask(x.command) ==> x.id != entry.id
    requires forall x :: x in w.phone.memory ==> x.semanticKey != entry.semanticKey
    ensures PhoneOk(detail, v)
  {
    var grown := w.phone.memory + [entry];
    EntriesMayGrow(detail, w, v, w.phone.memory);
    EntriesMayGrow(detail, w, v, w.phone.disk);
    assert forall x :: x in grown <==> x in w.phone.memory || x == entry;
    WithoutMembers(grown, {entry.id});
    NoneLostWhenTasksKept(w, v, w.phone.memory, v.phone.memory);
    NoneLostWhenTasksKept(w, v, w.phone.disk, w.phone.disk);
  }

  lemma ReplaceKeepsPhone(detail: Detail, w: World, v: World, i: nat, entry: OutboxEntry)
    requires PhoneOk(detail, w) && OnlyBooksGrow(w, v) && v.appended == w.appended && i < |w.phone.memory|
    requires v.phone.memory == w.phone.memory[i := entry] &&
             (v.phone.disk == v.phone.memory || v.phone.disk == w.phone.disk)
    requires EntryOk(detail, v.foreign, v.appended, entry) && entry.semanticKey == w.phone.memory[i].semanticKey
    requires !IsTask(w.phone.memory[i].command)
    ensures PhoneOk(detail, v)
  {
    var replaced := w.phone.memory[i := entry];
    EntriesMayGrow(detail, w, v, w.phone.memory);
    EntriesMayGrow(detail, w, v, w.phone.disk);
    forall x | x in replaced ensures EntryOk(detail, v.foreign, v.appended, x) {
      assert x == entry || x in w.phone.memory;
    }
    forall x | x in w.phone.memory && IsTask(x.command) ensures x in replaced {
      var j :| 0 <= j < |w.phone.memory| && w.phone.memory[j] == x;
      assert replaced[j] == x;
    }
    NoneLostWhenTasksKept(w, v, w.phone.memory, replaced);
    NoneLostWhenTasksKept(w, v, w.phone.disk, w.phone.disk);
  }

  lemma NewEntryOk(detail: Detail, w: World, e: Event)
    requires Valid(detail, w) && e.UserSends? && Enabled(w, e)
    ensures var entry, own := NewEntry(detail, e.command, e.freshKey, e.at), OwnKey(e.command, e.freshKey);
            && entry.semanticKey == SemanticKey(detail, e.command) && entry.command == e.command
            && (IsTask(e.command) ==>
                  IsEntryFor(entry, own) && EntryOk(detail, w.foreign, w.appended[own := e.command], entry))
            && (!IsTask(e.command) ==>
                  EntryOk(detail, if e.command.Type() == "task.command.cancel" then w.foreign else w.foreign + {own},
                          w.appended, entry))
            && (forall x :: x in w.phone.memory && IsTask(x.command) ==> x.id != entry.id)
  {
    var entry, own := NewEntry(detail, e.command, e.freshKey, e.at), OwnKey(e.command, e.freshKey);
    forall x | x in w.phone.memory && IsTask(x.command) ensures x.id != entry.id {
      assert EntryOk(detail, w.foreign, w.appended, x);
    }
  }

  lemma FreshSavedKeepsPhone(detail: Detail, w: World, e: Event)
    requires Valid(detail, w) && e.UserSends? && Enabled(w, e) && e.saved
    requires IndexOfKey(w.phone.memory, SemanticKey(detail, e.command)) == |w.phone.memory|
    ensures PhoneOk(detail, Step(detail, w, e))
  {
    var v, entry := Step(detail, w, e), NewEntry(detail, e.command, e.freshKey, e.at);
    NewEntryOk(detail, w, e);
    assert OnlyBooksGrow(w, v);
    AppendSavedKeepsPhone(detail, w, v, entry);
  }

  lemma FreshFailedKeepsPhone(detail: Detail, w: World, e: Event)
    requires Valid(detail, w) && e.UserSends? && Enabled(w, e) && !e.saved
    requires IndexOfKey(w.phone.memory, SemanticKey(detail, e.command)) == |w.phone.memory|
    ensures PhoneOk(detail, Step(detail, w, e))
  {
    var v, entry := Step(detail, w, e), NewEntry(detail, e.command, e.freshKey, e.at);
    assert v.phone == Phone(Without(w.phone.memory + [entry], {entry.id}), w.phone.disk);
    assert v.appended == w.appended && OnlyBooksGrow(w, v);
    AppendFailedKeepsPhone(detail, w, v, entry);
  }

  lemma ReplaceableIsNotATask(command: ClientCommand)
    requires command.Type() in REPLACEABLE
    ensures !IsTask(command) && command.Type() != "task.command.cancel"
  {
    assert |command.Type()| > 17 || command.Type()[0] != 't';
  }

  lemma UntouchedPhoneStaysOk(detail: Detail, w: World, v: World)
    requires PhoneOk(detail, w) && OnlyBooksGrow(w, v) && v.appended == w.appended && v.phone == w.phone
    ensures PhoneOk(detail, v)
  {
    EntriesMayGrow(detail, w, v, w.phone.memory);
    EntriesMayGrow(detail, w, v, w.phone.disk);
    NoneLostWhenTasksKept(w, v, w.phone.memory, w.phone.memory);
    NoneLostWhenTasksKept(w, v, w.phone.disk, w.phone.disk);
  }

  lemma RepeatedSendKeepsPhone(detail: Detail, w: World, e: Event)
    requires Valid(detail, w) && e.UserSends? && Enabled(w, e)
    requires IndexOfKey(w.phone.memory, SemanticKey(detail, e.command)) < |w.phone.memory|
    ensures PhoneOk(detail, Step(detail, w, e))
  {
    var v, memory := Step(detail, w, e), w.phone.memory;
    var i := IndexOfKey(memory, SemanticKey(detail, e.command));
    assert OnlyBooksGrow(w, v) && v.appended == w.appended;
    if e.command.Type() in REPLACEABLE {
      var entry := memory[i].(command := e.command, enqueuedAt := e.at, lastError := None);
      ReplaceableIsNotATask(e.command);
      assert EntryOk(detail, w.foreign, w.appended, memory[i]);
      SameKeySameType(detail, memory[i].command, e.command);
      assert EntryOk(detail, v.foreign, v.appended, entry);
      ReplaceKeepsPhone(detail, w, v, i, entry);
    } else {
      UntouchedPhoneStaysOk(detail, w, v);
    }
  }

  /** A send of the phone leaves the hosts alone and grows its books. */
  ghost predicate BooksGrown(w: World, v: World) {
    && v.hosts == w.hosts && v.wire == w.wire && w.foreign <= v.foreign && w.minted <= v.minted
    && Extends(w.appended, v.appended) && KeysOk(v.minted, v.foreign, v.appended)
    && (forall key :: key in v.minted ==> key in w.minted || key !in w.foreign)
  }

  lemma TaskSendGrowsBooks(detail: Detail, w: World, e: Event)
    requires KeysOk(w.minted, w.foreign, w.appended) && e.UserSends? && Enabled(w, e) && IsTask(e.command)
    ensures BooksGrown(w, Step(detail, w, e))
  {
    var v, own := Step(detail, w, e), OwnKey(e.command, e.freshKey);
    TaskKeyIsNew(w, e.command, own);
    assert v.minted == w.minted + {own} && v.foreign == w.foreign;
    assert v.appended == w.appended || v.appended == w.appended[own := e.command];
  }

  lemma OtherSendGrowsBooks(detail: Detail, w: World, e: Event)
    requires KeysOk(w.minted, w.foreign, w.appended) && e.UserSends? && Enabled(w, e) && !IsTask(e.command)
    ensures BooksGrown(w, Step(detail, w, e))
  {
    var v, own := Step(detail, w, e), OwnKey(e.command, e.freshKey);
    assert v.minted == w.minted && v.appended == w.appended;
    assert v.foreign == w.foreign || (v.foreign == w.foreign + {own} && own !in w.minted);
  }

  lemma SendGrowsBooks(detail: Detail, w: World, e: Event)
    requires KeysOk(w.minted, w.foreign, w.appended) && e.UserSends? && Enabled(w, e)
    ensures BooksGrown(w, Step(detail, w, e))
  {
    if IsTask(e.command) {
      TaskSendGrowsBooks(detail, w, e);
    } else {
      OtherSendGrowsBooks(detail, w, e);
    }
  }

  lemma TaskKeyIsNew(w: World, command: ClientCommand, own: string)
    requires KeysOk(w.minted, w.foreign, w.appended) && IsTask(command) && command.IdempotencyKey() == Some(own)
    requires ColonFree(own) && own !in w.minted + w.foreign
    ensures KeysOk(w.minted + {own}, w.foreign, w.appended) &&
            KeysOk(w.minted + {own}, w.foreign, w.appended[own := command])
    ensures Extends(w.appended, w.appended[own := command])
  {
  }

  lemma SendKeepsPhone(detail: Detail, w: World, e: Event)
    requires Valid(detail, w) && e.UserSends? && Enabled(w, e)
    ensures PhoneOk(detail, Step(detail, w, e))
  {
    if IndexOfKey(w.phone.memory, SemanticKey(detail, e.command)) == |w.phone.memory| {
      if e.saved {
        FreshSavedKeepsPhone(detail, w, e);
      } else {
        FreshFailedKeepsPhone(detail, w, e);
      }
    } else {
      RepeatedSendKeepsPhone(detail, w, e);
    }
  }

  lemma SendKeepsValid(detail: Detail, w: World, e: Event)
    requires Valid(detail, w) && e.UserSends? && Enabled(w, e)
    ensures Valid(detail, Step(detail, w, e))
  {
    SendKeepsPhone(detail, w, e);
    SendGrowsBooks(detail, w, e);
    BooksMayGrow(w, Step(detail, w, e));
  }

  lemma TransmitKeepsValid(detail: Detail, w: World, packet: Packet)
    requires Valid(detail, w) && Enabled(w, Transmit(packet))
    ensures Valid(detail, Step(detail, w, Transmit(packet)))
  {
    var v := Step(detail, w, Transmit(packet));
    BooksMayGrow(w, v);
    var entry :| entry in w.phone.memory && entry.command == packet.command;
    assert EntryOk(detail, w.foreign, w.appended, entry);
    assert PacketOk(v.appended, packet);
  }

  lemma HostStepKeepsHasRow(w: World, host: string, event: TC.Event, key: string)
    requires host in w.hosts && TC.Valid(w.hosts[host]) && HasRow(w.hosts, key)
    ensures HasRow(w.hosts[host := TC.Step(w.hosts[host], event)], key)
  {
    var h, id :| h in w.hosts && id in w.hosts[h].rows && LastSegment(w.hosts[h].rows[id].key) == key;
    TC.StepKeepsValid(w.hosts[host], event);
    assert TC.RowKept(w.hosts[host], TC.Step(w.hosts[host], event), id);
    var hosts := w.hosts[host := TC.Step(w.hosts[host], event)];
    assert h in hosts && id in hosts[h].rows && LastSegment(hosts[h].rows[id].key) == key;
  }

  /** A Bridge step is safe when any row it may insert would be right. */
  lemma HostStepKeepsValid(detail: Detail, w: World, v: World, host: string, event: TC.Event)
    requires Valid(detail, w) && host in w.hosts && w.foreign <= v.foreign && v.foreign !! w.minted
    requires v == w.(hosts := w.hosts[host := TC.Step(w.hosts[host], event)], foreign := v.foreign)
    requires forall row: TC.TaskCommand ::
               IsInsertedRow(event, row) ==> RowOk(v.wire, v.minted, v.foreign, v.appended, host, row)
    ensures Valid(detail, v)
  {
    var b, c := w.hosts[host], TC.Step(w.hosts[host], event);
    assert HostOk(w.wire, w.minted, w.foreign, w.appended, host, b);
    TC.StepKeepsValid(b, event);
    BooksMayGrow(w, w.(foreign := v.foreign));
    forall id | id in c.rows ensures RowOk(v.wire, v.minted, v.foreign, v.appended, host, c.rows[id]) {
      if id in b.rows {
        assert TC.RowKept(b, c, id);
        assert RowOk(w.wire, w.minted, w.foreign, w.appended, host, b.rows[id]);
      } else {
        TC.NewRowsAreSubmitted(b, event, id);
      }
    }
    forall h | h in v.hosts ensures HostOk(v.wire, v.minted, v.foreign, v.appended, h, v.hosts[h]) {
      if h != host {
        assert HostOk(v.wire, v.minted, v.foreign, v.appended, h, w.hosts[h]);
      }
    }
    EntriesMayGrow(detail, w, v, v.phone.memory);
    EntriesMayGrow(detail, w, v, v.phone.disk);
    forall key, entries | key in w.appended && NotLost(w.dropped, w.hosts, entries, key)
      ensures NotLost(v.dropped, v.hosts, entries, key)
    {
      if HasRow(w.hosts, key) {
        HostStepKeepsHasRow(w, host, event, key);
      }
    }
  }

  lemma StorageKeyParts(device: string, key: string)
    requires ColonFree(key)
    ensures var stored := StorageKey(device, key);
            LastSegment(stored) == key && DeviceOf(stored) == device && ':' in stored
  {
    StorageKeyLastSegment(device, key);
    assert StorageKey(device, key)[|device|] == ':';
  }

  /** A row as the Bridge would insert it for `event`. */
  predicate IsInsertedRow(event: TC.Event, row: TC.TaskCommand) {
    && InsertsRow(event) && row.key == event.key && row.text == TC.Trim(event.text)
    && row.kind == (if event.Create? then TC.CreateTask else TC.FollowUpTask)
  }

  lemma DeliveredRowIsRight(w: World, packet: Packet, newId: string, row: TC.TaskCommand)
    requires KeysOk(w.minted, w.foreign, w.appended) && packet in w.wire && PacketOk(w.appended, packet)
    requires AsBridgeEvent(packet, newId).Some? && IsInsertedRow(AsBridgeEvent(packet, newId).value, row)
    ensures RowOk(w.wire, w.minted, w.foreign, w.appended, packet.host, row)
  {
    var key := packet.command.IdempotencyKey().value;
    StorageKeyParts(packet.device, key);
    assert row.key == StorageKey(packet.device, key) && w.appended[key] == packet.command;
    assert Packet(packet.host, packet.device, w.appended[key]) == packet;
  }

  lemma DeliverKeepsValid(detail: Detail, w: World, packet: Packet, newId: string)
    requires Valid(detail, w) && Enabled(w, Deliver(packet, newId))
    ensures Valid(detail, Step(detail, w, Deliver(packet, newId)))
  {
    var event := AsBridgeEvent(packet, newId);
    if event.Some? {
      assert PacketOk(w.appended, packet);
      forall row: TC.TaskCommand | IsInsertedRow(event.value, row)
        ensures RowOk(w.wire, w.minted, w.foreign, w.appended, packet.host, row)
      {
        DeliveredRowIsRight(w, packet, newId, row);
      }
      HostStepKeepsValid(detail, w, Step(detail, w, Deliver(packet, newId)), packet.host, event.value);
    }
  }

  lemma BridgeStepKeepsValid(detail: Detail, w: World, e: Event)
    requires Valid(detail, w) && e.BridgeSteps? && Enabled(w, e)
    ensures Valid(detail, Step(detail, w, e))
  {
    if InsertsRow(e.event) {
      StorageKeyParts(e.device, e.key);
    }
    HostStepKeepsValid(detail, w, Step(detail, w, e), e.host, e.event);
  }

  lemma StepKeepsValid(detail: Detail, w: World, e: Event)
    requires Valid(detail, w) && Enabled(w, e)
    ensures Valid(detail, Step(detail, w, e))
  {
    match e
    case UserSends(_, _, _, _) => SendKeepsValid(detail, w, e);
    case Transmit(packet) => TransmitKeepsValid(detail, w, packet);
    case Deliver(packet, newId) => DeliverKeepsValid(detail, w, packet, newId);
    case AckArrives(host, message, saved) => AckKeepsValid(detail, w, host, message, saved);
    case UserRemoves(ids, saved) => RemoveKeepsValid(detail, w, ids, saved);
    case UserRetries(id, saved) => MarkKeepsValid(detail, w, Step(detail, w, e), {id}, None);
    case ErrorArrives(ids, error, saved) => MarkKeepsValid(detail, w, Step(detail, w, e), ids, Some(error));
    case PhoneRestarts =>
    case BridgeSteps(_, _, _, _) => BridgeStepKeepsValid(detail, w, e);
    case RePair(_, _) =>
  }

  lemma {:induction false} RunKeepsValid(detail: Detail, w: World, events: seq<Event>)
    requires Valid(detail, w) && Possible(detail, w, events)
    ensures Valid(detail, Run(detail, w, events))
    decreases |events|
  {
    if events != [] {
      StepKeepsValid(detail, w, events[0]);
      RunKeepsValid(detail, Step(detail, w, events[0]), events[1..]);
    }
  }

  lemma StartIsValid(detail: Detail, names: set<string>, paired: map<string, string>)
    ensures Valid(detail, Start(names, paired))
  {
    TC.EmptyIsValid();
  }

  // --------------------------------------------------------------- main results

  /** Never lost: at every moment of every run, each command `sendDurable`
      appended is still in the outbox, in memory and on disk, or stored on a
      Bridge, unless the user removed it; and no two entries share a key. */
  lemma NeverLost(detail: Detail, names: set<string>, paired: map<string, string>, events: seq<Event>, key: string)
    requires Possible(detail, Start(names, paired), events)
    ensures var w := Run(detail, Start(names, paired), events);
            && (key in w.appended && key !in w.dropped ==>
                  (InOutbox(w.phone.memory, key) && InOutbox(w.phone.disk, key)) || HasRow(w.hosts, key))
            && DistinctKeys(w.phone.memory) && DistinctKeys(w.phone.disk)
  {
    StartIsValid(detail, names, paired);
    RunKeepsValid(detail, Start(names, paired), events);
    var w := Run(detail, Start(names, paired), events);
    assert key in w.appended ==>
             NotLost(w.dropped, w.hosts, w.phone.memory, key) && NotLost(w.dropped, w.hosts, w.phone.disk, key);
  }

  /** A stored row asks for what the user wrote: its text is the appended text. */
  lemma RowsCarryTheAppendedText(detail: Detail, names: set<string>, paired: map<string, string>, events: seq<Event>,
                                 host: string, id: string)
    requires Possible(detail, Start(names, paired), events)
    ensures var w := Run(detail, Start(names, paired), events);
            host in w.hosts && id in w.hosts[host].rows && LastSegment(w.hosts[host].rows[id].key) in w.appended ==>
              var command, row := w.appended[LastSegment(w.hosts[host].rows[id].key)], w.hosts[host].rows[id];
              && Text(command.values, "text").Some? && row.text == TC.Trim(Text(command.values, "text").value)
              && Reaches(command, host)
  {
    StartIsValid(detail, names, paired);
    RunKeepsValid(detail, Start(names, paired), events);
    var w := Run(detail, Start(names, paired), events);
    if host in w.hosts && id in w.hosts[host].rows {
      var row := w.hosts[host].rows[id];
      assert HostOk(w.wire, w.minted, w.foreign, w.appended, host, w.hosts[host]);
      assert RowOk(w.wire, w.minted, w.foreign, w.appended, host, row);
      if LastSegment(row.key) in w.appended {
        assert PacketOk(w.appended, Packet(host, DeviceOf(row.key), w.appended[LastSegment(row.key)]));
      }
    }
  }

  ghost predicate NeverRePaired(events: seq<Event>) {
    forall e :: e in events ==> !e.RePair?
  }

  ghost predicate SentAsPaired(w: World, paired: map<string, string>) {
    w.paired == paired &&
    forall packet :: packet in w.wire ==> packet.host in paired && packet.device == paired[packet.host]
  }

  lemma StepKeepsPairing(detail: Detail, w: World, e: Event, paired: map<string, string>)
    requires Enabled(w, e) && !e.RePair? && SentAsPaired(w, paired)
    ensures SentAsPaired(Step(detail, w, e), paired)
  {
    var v := Step(detail, w, e);
    match e
    case Transmit(packet) => assert v == w.(wire := w.wire + {packet});
    case RePair(_, _) =>
    case UserSends(_, _, _, _) => assert v.wire == w.wire && v.paired == w.paired;
    case _ => assert v.wire == w.wire && v.paired == w.paired;
  }

  lemma {:induction false} PairingIsStable(detail: Detail, w: World, events: seq<Event>, paired: map<string, string>)
    requires Possible(detail, w, events) && NeverRePaired(events) && SentAsPaired(w, paired)
    ensures SentAsPaired(Run(detail, w, events), paired)
    decreases |events|
  {
    if events != [] {
      assert events[0] in events && forall e :: e in events[1..] ==> e in events;
      StepKeepsPairing(detail, w, events[0], paired);
      PairingIsStable(detail, Step(detail, w, events[0]), events[1..], paired);
    }
  }

  predicate IsRowFor(w: World, host: string, id: string, key: string) {
    host in w.hosts && id in w.hosts[host].rows && LastSegment(w.hosts[host].rows[id].key) == key
  }

  /** In any run, a command has at most one row per host and device it was sent
      as, and a row only where it was sent. */
  lemma OneRowPerPairing(detail: Detail, names: set<string>, paired: map<string, string>, events: seq<Event>,
                         key: string, host: string, x: string, y: string)
    requires Possible(detail, Start(names, paired), events)
    requires var w := Run(detail, Start(names, paired), events);
             key in w.appended && IsRowFor(w, host, x, key) && IsRowFor(w, host, y, key)
    ensures var w := Run(detail, Start(names, paired), events);
            var b := w.hosts[host];
            && Packet(host, DeviceOf(b.rows[x].key), w.appended[key]) in w.wire
            && (x == y <==> DeviceOf(b.rows[x].key) == DeviceOf(b.rows[y].key))
  {
    StartIsValid(detail, names, paired);
    RunKeepsValid(detail, Start(names, paired), events);
    var w := Run(detail, Start(names, paired), events);
    var b := w.hosts[host];
    assert HostOk(w.wire, w.minted, w.foreign, w.appended, host, b);
    assert RowOk(w.wire, w.minted, w.foreign, w.appended, host, b.rows[x]);
    assert RowOk(w.wire, w.minted, w.foreign, w.appended, host, b.rows[y]);
  }

  /** Never duplicated: while the phone keeps its device identity, a command that
      names its host has at most one row anywhere, and that row is launched at
      most once plus once per accepted retry or restart requeue. */
  lemma AtMostOneRow(detail: Detail, names: set<string>, paired: map<string, string>, events: seq<Event>, key: string,
                     host1: string, x: string, host2: string, y: string)
    requires Possible(detail, Start(names, paired), events) && NeverRePaired(events)
    requires var w := Run(detail, Start(names, paired), events);
             && key in w.appended && w.appended[key].HostId().Some?
             && IsRowFor(w, host1, x, key) && IsRowFor(w, host2, y, key)
    ensures var b := Run(detail, Start(names, paired), events).hosts[host1];
            && host1 == host2 && x == y
            && b.marks[TC.Launched(x)] <= 1 + b.marks[TC.Retried(x)] + b.marks[TC.Requeued(x)]
  {
    var start := Start(names, paired);
    var w := Run(detail, start, events);
    StartIsValid(detail, names, paired);
    RunKeepsValid(detail, start, events);
    PairingIsStable(detail, start, events, paired);
    RowsCarryTheAppendedText(detail, names, paired, events, host1, x);
    RowsCarryTheAppendedText(detail, names, paired, events, host2, y);
    OneRowPerPairing(detail, names, paired, events, key, host1, x, x);
    OneRowPerPairing(detail, names, paired, events, key, host2, y, y);
    OneRowPerPairing(detail, names, paired, events, key, host1, x, y);
    assert HostOk(w.wire, w.minted, w.foreign, w.appended, host1, w.hosts[host1]);
    assert TC.RowOk(w.hosts[host1], x);
  }

  // ------------------------------------------------ which deliveries make a row

  ghost predicate StoredAs(w: World, host: string, device: string, key: string) {
    host in w.hosts && exists id :: id in w.hosts[host].rows && w.hosts[host].rows[id].key == StorageKey(device, key)
  }

  /** The packet carries the command of `key` as `device`, its fields are there,
      the id drawn for a row is new, and a followed-up session is known. */
  predicate Arrives(w: World, e: Event, host: string, device: string, key: string) {
    && e.Deliver? && e.packet.host == host && e.packet.device == device
    && e.packet.command.IdempotencyKey() == Some(key)
    && host in w.hosts && e.newId !in w.hosts[host].rows
    && var event := AsBridgeEvent(e.packet, e.newId);
       event.Some? && InsertsRow(event.value) &&
       (event.value.FollowUp? ==> event.value.sessionId in w.hosts[host].sessions)
  }

  lemma OnlyTasksInsert(packet: Packet, newId: string)
    requires AsBridgeEvent(packet, newId).Some? && InsertsRow(AsBridgeEvent(packet, newId).value)
    ensures IsTask(packet.command) && packet.command.IdempotencyKey().Some?
    ensures var event := AsBridgeEvent(packet, newId).value;
            event.newId == newId && event.key == StorageKey(packet.device, packet.command.IdempotencyKey().value)
  {
  }

  /** On the host a packet reaches, a command is stored exactly when it was, or
      when this delivery carries it there. */
  lemma DeliveryStoresExactlyWhen(detail: Detail, w: World, packet: Packet, newId: string, device: string, key: string)
    requires Valid(detail, w) && Enabled(w, Deliver(packet, newId)) && ColonFree(key)
    ensures var e := Deliver(packet, newId);
            StoredAs(Step(detail, w, e), packet.host, device, key) <==>
            StoredAs(w, packet.host, device, key) || Arrives(w, e, packet.host, device, key)
  {
    var event, host := AsBridgeEvent(packet, newId), packet.host;
    var b := w.hosts[host];
    assert HostOk(w.wire, w.minted, w.foreign, w.appended, host, b);
    if event.Some? {
      if InsertsRow(event.value) {
        OnlyTasksInsert(packet, newId);
        assert PacketOk(w.appended, packet);
        TaskSubmissionStores(b, event.value, packet.device, packet.command.IdempotencyKey().value, device, key);
      } else {
        StepsKeepKeys(b, event.value);
      }
    }
  }

  /** Whether a table holds the storage key. */
  ghost predicate Holds(b: TC.Bridge, stored: string) {
    exists id :: id in b.rows && b.rows[id].key == stored
  }

  lemma TaskSubmissionStores(b: TC.Bridge, event: TC.Event, sender: string, own: string, device: string, key: string)
    requires TC.Valid(b) && InsertsRow(event) && event.key == StorageKey(sender, own) && ColonFree(own) &&
             ColonFree(key)
    ensures Holds(TC.Step(b, event), StorageKey(device, key)) <==>
            || Holds(b, StorageKey(device, key))
            || (sender == device && own == key && event.newId !in b.rows &&
                (event.FollowUp? ==> event.sessionId in b.sessions))
  {
    var c, stored := TC.Step(b, event), StorageKey(device, key);
    TC.SubmissionStoresExactlyWhen(b, event);
    TC.StepKeepsValid(b, event);
    forall id | id in b.rows ensures c.rows[id].key == b.rows[id].key {
      assert TC.RowKept(b, c, id);
    }
    if event.key == stored {
      StorageKeyInjective(sender, own, device, key);
      if !TC.KeyIsNew(b, event.key) {
        assert Holds(b, stored) && Holds(c, stored);
      } else if TC.Stores(b, event) {
        assert c.rows[event.newId].key == stored;
      }
    }
  }

  lemma StepsKeepKeys(b: TC.Bridge, event: TC.Event)
    requires TC.Valid(b) && !InsertsRow(event)
    ensures var c := TC.Step(b, event);
            c.rows.Keys == b.rows.Keys && forall id :: id in b.rows ==> c.rows[id].key == b.rows[id].key
  {
    var c := TC.Step(b, event);
    TC.StepKeepsValid(b, event);
    forall id | id in c.rows ensures id in b.rows {
      if id !in b.rows {
        TC.NewRowsAreSubmitted(b, event, id);
      }
    }
    forall id | id in b.rows ensures id in c.rows && c.rows[id].key == b.rows[id].key {
      assert TC.RowKept(b, c, id);
    }
  }

  /** Any other event leaves what is stored under the phone's keys as it was. */
  lemma OthersStoreNothing(detail: Detail, w: World, e: Event, host: string, device: string, key: string)
    requires Valid(detail, w) && Enabled(w, e) && ColonFree(key) && key !in Step(detail, w, e).foreign
    requires e.Deliver? ==> e.packet.host != host
    ensures StoredAs(Step(detail, w, e), host, device, key) <==> StoredAs(w, host, device, key)
  {
    if e.BridgeSteps? && e.host == host {
      var b := w.hosts[host];
      assert HostOk(w.wire, w.minted, w.foreign, w.appended, host, b);
      BridgeStepHolds(b, e.event, e.device, e.key, device, key);
    } else {
      OtherHostsStay(detail, w, e, host);
    }
  }

  lemma BridgeStepHolds(b: TC.Bridge, event: TC.Event, sender: string, own: string, device: string, key: string)
    requires TC.Valid(b) && ColonFree(key)
    requires InsertsRow(event) ==> event.key == StorageKey(sender, own) && ColonFree(own) && own != key
    ensures Holds(TC.Step(b, event), StorageKey(device, key)) <==> Holds(b, StorageKey(device, key))
  {
    if InsertsRow(event) {
      TaskSubmissionStores(b, event, sender, own, device, key);
    } else {
      StepsKeepKeys(b, event);
    }
  }

  lemma OtherHostsStay(detail: Detail, w: World, e: Event, host: string)
    requires (e.Deliver? ==> e.packet.host != host) && (e.BridgeSteps? ==> e.host != host)
    ensures var v := Step(detail, w, e);
            (host in v.hosts <==> host in w.hosts) && (host in w.hosts ==> v.hosts[host] == w.hosts[host])
  {
  }

  ghost predicate ArrivesIn(detail: Detail, w: World, events: seq<Event>, host: string, device: string, key: string)
    decreases |events|
  {
    events != [] &&
    (Arrives(w, events[0], host, device, key) ||
     ArrivesIn(detail, Step(detail, w, events[0]), events[1..], host, device, key))
  }

  lemma {:induction false} ForeignGrows(detail: Detail, w: World, events: seq<Event>)
    ensures w.foreign <= Run(detail, w, events).foreign
    decreases |events|
  {
    if events != [] {
      ForeignGrows(detail, Step(detail, w, events[0]), events[1..]);
    }
  }

  lemma {:induction false} StoredFromHere(detail: Detail, w: World, events: seq<Event>, host: string, device: string,
                                          key: string)
    requires Valid(detail, w) && Possible(detail, w, events) && ColonFree(key) && key !in Run(detail, w, events).foreign
    ensures StoredAs(Run(detail, w, events), host, device, key) <==>
            StoredAs(w, host, device, key) || ArrivesIn(detail, w, events, host, device, key)
    decreases |events|
  {
    if events != [] {
      var e, next := events[0], Step(detail, w, events[0]);
      StepKeepsValid(detail, w, e);
      ForeignGrows(detail, next, events[1..]);
      if e.Deliver? && e.packet.host == host {
        DeliveryStoresExactlyWhen(detail, w, e.packet, e.newId, device, key);
      } else {
        OthersStoreNothing(detail, w, e, host, device, key);
      }
      StoredFromHere(detail, next, events[1..], host, device, key);
    }
  }

  ghost predicate AllRowsAreOne(w: World, key: string) {
    forall h1, x, h2, y :: IsRowFor(w, h1, x, key) && IsRowFor(w, h2, y, key) ==> h1 == h2 && x == y
  }

  ghost predicate AllArrivalsAgree(detail: Detail, w: World, events: seq<Event>, key: string) {
    forall h1, d1, h2, d2 ::
      ArrivesIn(detail, w, events, h1, d1, key) && ArrivesIn(detail, w, events, h2, d2, key) ==> h1 == h2 && d1 == d2
  }

  /** The rows of a command, counted exactly: over any run it has at most one row
      on all hosts together if and only if every delivery of it that could be
      stored reached one host as one device. */
  lemma OneRowExactlyWhen(detail: Detail, names: set<string>, paired: map<string, string>, events: seq<Event>,
                          key: string)
    requires Possible(detail, Start(names, paired), events) && key in Run(detail, Start(names, paired), events).appended
    ensures AllRowsAreOne(Run(detail, Start(names, paired), events), key) <==>
            AllArrivalsAgree(detail, Start(names, paired), events, key)
  {
    var start := Start(names, paired);
    var w := Run(detail, start, events);
    StartIsValid(detail, names, paired);
    RunKeepsValid(detail, start, events);
    if AllRowsAreOne(w, key) {
      forall h1, d1, h2, d2 |
        ArrivesIn(detail, start, events, h1, d1, key) && ArrivesIn(detail, start, events, h2, d2, key)
        ensures h1 == h2 && d1 == d2
      {
        var x := ArrivalHasRow(detail, start, events, h1, d1, key);
        var y := ArrivalHasRow(detail, start, events, h2, d2, key);
        StorageKeyInjective(d1, key, d2, key);
      }
    }
    if AllArrivalsAgree(detail, start, events, key) {
      forall h1, x, h2, y | IsRowFor(w, h1, x, key) && IsRowFor(w, h2, y, key) ensures h1 == h2 && x == y {
        RowHasArrival(detail, start, events, h1, x, key);
        RowHasArrival(detail, start, events, h2, y, key);
        assert HostOk(w.wire, w.minted, w.foreign, w.appended, h1, w.hosts[h1]);
        assert w.hosts[h1].rows[x].key == StorageKey(DeviceOf(w.hosts[h1].rows[x].key), key);
        assert w.hosts[h2].rows[y].key == StorageKey(DeviceOf(w.hosts[h2].rows[y].key), key);
      }
    }
  }

  lemma ArrivalHasRow(detail: Detail, start: World, events: seq<Event>, host: string, device: string, key: string)
    returns (id: string)
    requires Valid(detail, start) && Possible(detail, start, events) && Valid(detail, Run(detail, start, events))
    requires key in Run(detail, start, events).appended && ArrivesIn(detail, start, events, host, device, key)
    ensures var w := Run(detail, start, events);
            IsRowFor(w, host, id, key) && w.hosts[host].rows[id].key == StorageKey(device, key)
  {
    var w := Run(detail, start, events);
    StoredFromHere(detail, start, events, host, device, key);
    id :| id in w.hosts[host].rows && w.hosts[host].rows[id].key == StorageKey(device, key);
    StorageKeyParts(device, key);
  }

  lemma RowHasArrival(detail: Detail, start: World, events: seq<Event>, host: string, id: string, key: string)
    requires Valid(detail, start) && Possible(detail, start, events) && Valid(detail, Run(detail, start, events))
    requires forall h :: h in start.hosts ==> start.hosts[h].rows == map[]
    requires key in Run(detail, start, events).appended && IsRowFor(Run(detail, start, events), host, id, key)
    ensures var row := Run(detail, start, events).hosts[host].rows[id];
            row.key == StorageKey(DeviceOf(row.key), key) &&
            ArrivesIn(detail, start, events, host, DeviceOf(row.key), key)
  {
    var w := Run(detail, start, events);
    var row := w.hosts[host].rows[id];
    assert HostOk(w.wire, w.minted, w.foreign, w.appended, host, w.hosts[host]);
    assert RowOk(w.wire, w.minted, w.foreign, w.appended, host, row);
    assert row.key == StorageKey(DeviceOf(row.key), key);
    assert StoredAs(w, host, DeviceOf(row.key), key);
    StoredFromHere(detail, start, events, host, DeviceOf(row.key), key);
  }

  // ----------------------------------------------------- two ways to get two rows

  /** A create, as it is queued while a host is known or while none is. */
  function Sample(host: Option<string>): ClientCommand {
    var values := map["type" := Str("task.create"), "idempotencyKey" := Str("k"),
                      "workspaceId" := Str("w"), "text" := Str("t")];
    ClientCommand(if host.Some? then values["hostId" := Str(host.value)] else values)
  }

  lemma SampleFacts(host: Option<string>)
    ensures var sample := Sample(host);
            sample.Type() == "task.create" && IsTask(sample) && sample.IdempotencyKey() == Some("k") &&
            sample.HostId() == host && ColonFree("k")
  {
  }

  lemma SampleIsScoped(host: Option<string>)
    requires host == None || host == Some("h")
    ensures WellScoped(Sample(host))
  {
    SampleFacts(host);
    assert "task.create"[4] == '.';
  }

  lemma SampleEvent(host: Option<string>, to: string, device: string, id: string)
    ensures AsBridgeEvent(Packet(to, device, Sample(host)), id) ==
            Some(TC.Create(id, StorageKey(device, "k"), "w", "t", []))
  {
    SampleFacts(host);
  }

  ghost predicate Leads(detail: Detail, start: World, events: seq<Event>, w: World) {
    Possible(detail, start, events) && Run(detail, start, events) == w
  }

  lemma {:induction false} Extend(detail: Detail, start: World, events: seq<Event>, w: World, e: Event)
    requires Leads(detail, start, events, w) && Enabled(w, e)
    ensures Leads(detail, start, events + [e], Step(detail, w, e))
    decreases |events|
  {
    if events == [] {
      assert [] + [e] == [e];
    } else {
      assert (events + [e])[0] == events[0] && (events + [e])[1..] == events[1..] + [e];
      Extend(detail, Step(detail, start, events[0]), events[1..], w, e);
    }
  }

  /** The sample waits on the phone, paired as given. */
  ghost predicate Waiting(w: World, host: Option<string>, paired: map<string, string>) {
    w.paired == paired && exists entry :: entry in w.phone.memory && entry.command == Sample(host)
  }

  lemma SampleQueued(detail: Detail, names: set<string>, paired: map<string, string>, host: Option<string>)
    returns (events: seq<Event>, w: World)
    requires host == None || host == Some("h")
    ensures Leads(detail, Start(names, paired), events, w)
    ensures Waiting(w, host, paired) && w.hosts == Start(names, paired).hosts
    ensures NeverRePaired(events)
  {
    var start, e := Start(names, paired), UserSends(Sample(host), "", 0, true);
    SampleFacts(host);
    SampleIsScoped(host);
    Extend(detail, start, [], start, e);
    events, w := [] + [e], Step(detail, start, e);
    assert w.phone.memory == [NewEntry(detail, Sample(host), "", 0)];
    assert w.phone.memory[0].command == Sample(host);
  }

  predicate IsNewFor(b: TC.Bridge, id: string, device: string) {
    id !in b.rows && forall x :: x in b.rows ==> b.rows[x].key != StorageKey(device, "k")
  }

  lemma SampleStored(b: TC.Bridge, id: string, device: string)
    requires TC.Valid(b) && IsNewFor(b, id, device)
    ensures var c := TC.Step(b, TC.Create(id, StorageKey(device, "k"), "w", "t", []));
            && c.rows.Keys == b.rows.Keys + {id} && c.rows[id].key == StorageKey(device, "k")
            && forall x :: x in b.rows ==> c.rows[x].key == b.rows[x].key
  {
    var event := TC.Create(id, StorageKey(device, "k"), "w", "t", []);
    TC.SubmissionStoresExactlyWhen(b, event);
    TC.StepKeepsValid(b, event);
    forall x | x in b.rows ensures TC.Step(b, event).rows[x].key == b.rows[x].key {
      assert TC.RowKept(b, TC.Step(b, event), x);
    }
  }

  lemma SampleStoredAt(detail: Detail, names: set<string>, paired: map<string, string>, events: seq<Event>, w: World,
                       to: string, id: string, device: string)
    requires Leads(detail, Start(names, paired), events, w) && to in w.hosts && IsNewFor(w.hosts[to], id, device)
    ensures var b := w.hosts[to];
            var c := TC.Step(b, TC.Create(id, StorageKey(device, "k"), "w", "t", []));
            && c.rows.Keys == b.rows.Keys + {id} && c.rows[id].key == StorageKey(device, "k")
            && forall x :: x in b.rows ==> c.rows[x].key == b.rows[x].key
  {
    StartIsValid(detail, names, paired);
    RunKeepsValid(detail, Start(names, paired), events);
    assert HostOk(w.wire, w.minted, w.foreign, w.appended, to, w.hosts[to]);
    SampleStored(w.hosts[to], id, device);
  }

  /** Sending and delivering the waiting sample to `to` adds row `id` there. */
  lemma SampleDelivered(detail: Detail, names: set<string>, paired: map<string, string>, events: seq<Event>, w: World,
                        host: Option<string>, to: string, id: string)
    returns (longer: seq<Event>, v: World)
    requires Leads(detail, Start(names, paired), events, w) && Waiting(w, host, w.paired)
    requires to in w.paired && (host.Some? ==> host.value == to) && to in w.hosts
    requires IsNewFor(w.hosts[to], id, w.paired[to])
    ensures Leads(detail, Start(names, paired), longer, v) && Waiting(v, host, w.paired)
    ensures to in v.hosts && v.hosts == w.hosts[to := v.hosts[to]]
    ensures v.hosts[to].rows.Keys == w.hosts[to].rows.Keys + {id} &&
            v.hosts[to].rows[id].key == StorageKey(w.paired[to], "k")
    ensures forall x :: x in w.hosts[to].rows ==> v.hosts[to].rows[x].key == w.hosts[to].rows[x].key
    ensures NeverRePaired(events) ==> NeverRePaired(longer)
  {
    var packet := Packet(to, w.paired[to], Sample(host));
    SampleFacts(host);
    SampleEvent(host, to, w.paired[to], id);
    SampleStoredAt(detail, names, paired, events, w, to, id, w.paired[to]);
    var sent := Step(detail, w, Transmit(packet));
    assert sent == w.(wire := w.wire + {packet});
    Extend(detail, Start(names, paired), events, w, Transmit(packet));
    Extend(detail, Start(names, paired), events + [Transmit(packet)], sent, Deliver(packet, id));
    longer, v := events + [Transmit(packet)] + [Deliver(packet, id)], Step(detail, sent, Deliver(packet, id));
  }

  lemma RowsForSample(w: World, host: string, id: string, device: string)
    requires host in w.hosts && id in w.hosts[host].rows && w.hosts[host].rows[id].key == StorageKey(device, "k")
    ensures IsRowFor(w, host, id, "k")
  {
    StorageKeyLastSegment(device, "k");
  }

  /** The identity matters: a lost acknowledgement followed by a re-pairing makes
      the same entry a second row under the new device id. */
  lemma RePairingDuplicates(detail: Detail)
    ensures exists events :: var start := Start({"h"}, map["h" := "d1"]); var w := Run(detail, start, events);
              Possible(detail, start, events) && IsRowFor(w, "h", "r1", "k") && IsRowFor(w, "h", "r2", "k")
  {
    var names, paired, host := {"h"}, map["h" := "d1"], Some("h");
    var queued, w0 := SampleQueued(detail, names, paired, host);
    var stored, w1 := SampleDelivered(detail, names, paired, queued, w0, host, "h", "r1");
    Extend(detail, Start(names, paired), stored, w1, RePair("h", "d2"));
    var w2 := w1.(paired := w1.paired["h" := "d2"]);
    assert StorageKey("d1", "k")[1] != StorageKey("d2", "k")[1] && "r2"[1] != "r1"[1];
    var twice, w3 := SampleDelivered(detail, names, paired, stored + [RePair("h", "d2")], w2, host, "h", "r2");
    RowsForSample(w3, "h", "r1", "d1");
    RowsForSample(w3, "h", "r2", "d2");
  }

  /** So does the host: a command queued while no host was known goes to whichever
      is connected when it is flushed, and a resend may reach another one. */
  lemma UnscopedDuplicates(detail: Detail)
    ensures exists events ::
              var start := Start({"h1", "h2"}, map["h1" := "d", "h2" := "d"]); var w := Run(detail, start, events);
              Possible(detail, start, events) && NeverRePaired(events) && IsRowFor(w, "h1", "r1", "k") &&
              IsRowFor(w, "h2", "r2", "k")
  {
    var names, paired := {"h1", "h2"}, map["h1" := "d", "h2" := "d"];
    var queued, w0 := SampleQueued(detail, names, paired, None);
    assert "h1"[1] != "h2"[1];
    var stored, w1 := SampleDelivered(detail, names, paired, queued, w0, None, "h1", "r1");
    var twice, w2 := SampleDelivered(detail, names, paired, stored, w1, None, "h2", "r2");
    RowsForSample(w2, "h1", "r1", "d");
    RowsForSample(w2, "h2", "r2", "d");
  }
}
