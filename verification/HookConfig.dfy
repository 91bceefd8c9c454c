/** Rewriting a user's hook configuration: Zimlo's own handlers are taken out and
    put in, and nobody else's are touched. Objects are maps, without key order. */
module HookConfig {
  import opened JsonValues
  import opened Keys

  datatype Provider = Codex | Claude

  datatype HookEvent = SessionStart | PreToolUse | PermissionRequest

  const EVENTS := [SessionStart, PreToolUse, PermissionRequest]

  function Name(event: HookEvent): string {
    match event
    case SessionStart => "SessionStart"
    case PreToolUse => "PreToolUse"
    case PermissionRequest => "PermissionRequest"
  }

  lemma NamesDiffer(x: HookEvent, y: HookEvent)
    ensures Name(x) == Name(y) ==> x == y
  {
    assert |Name(SessionStart)| == 12 && |Name(PreToolUse)| == 10 && |Name(PermissionRequest)| == 17;
  }

  // ------------------------------------------------------------------- removing

  /** A handler object whose command is recognised as this provider's Zimlo. */
  predicate IsZimlo(handler: Json, zimlo: string -> bool) {
    handler.Obj? && "command" in handler.fields && handler.fields["command"].Str? && zimlo(handler.fields["command"].s)
  }

  function Foreign(handlers: seq<Json>, zimlo: string -> bool): seq<Json> {
    if handlers == [] then []
    else if IsZimlo(handlers[0], zimlo) then Foreign(handlers[1..], zimlo)
    else [handlers[0]] + Foreign(handlers[1..], zimlo)
  }

  predicate HasHandlers(group: Json) {
    group.Obj? && "hooks" in group.fields && group.fields["hooks"].Arr?
  }

  function Handlers(group: Json): seq<Json>
    requires HasHandlers(group)
  {
    group.fields["hooks"].items
  }

  /** A group that loses its last handler goes; one that loses none is untouched. */
  function RemoveFromGroup(group: Json, zimlo: string -> bool): seq<Json> {
    if !HasHandlers(group) then [group]
    else
      var remaining := Foreign(Handlers(group), zimlo);
      if |remaining| == |Handlers(group)| then [group]
      else if remaining == [] then []
      else [Obj(group.fields["hooks" := Arr(remaining)])]
  }

  function RemoveFromGroups(groups: seq<Json>, zimlo: string -> bool): seq<Json> {
    if groups == [] then [] else RemoveFromGroup(groups[0], zimlo) + RemoveFromGroups(groups[1..], zimlo)
  }

  /** What becomes of one event's value, None when the event is deleted. */
  function RemoveSlot(slot: Option<Json>, zimlo: string -> bool): Option<Json> {
    if slot.None? || !slot.value.Arr? || slot.value.items == [] then slot
    else
      var groups := RemoveFromGroups(slot.value.items, zimlo);
      if groups == [] then None else Some(Arr(groups))
  }

  function Slot(hooks: map<string, Json>, key: string): Option<Json> {
    if key in hooks then Some(hooks[key]) else None
  }

  function RemoveFromHooks(hooks: map<string, Json>, zimlo: string -> bool): map<string, Json> {
    map key | key in hooks && RemoveSlot(Slot(hooks, key), zimlo).Some? :: RemoveSlot(Slot(hooks, key), zimlo).value
  }

  predicate HasHooks(root: map<string, Json>) {
    "hooks" in root && root["hooks"].Obj?
  }

  function HooksOf(root: map<string, Json>): map<string, Json> {
    if HasHooks(root) then root["hooks"].fields else map[]
  }

  function Removed(root: map<string, Json>, zimlo: string -> bool): map<string, Json> {
    if !HasHooks(root) then root else root["hooks" := Obj(RemoveFromHooks(HooksOf(root), zimlo))]
  }

  // ------------------------------------------------------------------ appending

  predicate Runs(handler: Json, command: string) {
    handler.Obj? && "command" in handler.fields && handler.fields["command"] == Str(command)
  }

  predicate GroupRuns(group: Json, command: string) {
    HasHandlers(group) && exists i :: 0 <= i < |Handlers(group)| && Runs(Handlers(group)[i], command)
  }

  predicate AlreadyInstalled(groups: seq<Json>, command: string) {
    exists i :: 0 <= i < |groups| && GroupRuns(groups[i], command)
  }

  function Handler(event: HookEvent, command: string): Json {
    Obj(map["type" := Str("command"), "command" := Str(command),
            "timeout" := Num(if event.SessionStart? then 5 else 480),
            "statusMessage" := Str(match event
                                   case PermissionRequest => "Waiting for Zimlo approval"
                                   case PreToolUse => "Waiting for Zimlo input"
                                   case SessionStart => "Binding Zimlo session")])
  }

  function Matcher(event: HookEvent, provider: Provider): string {
    match event
    case SessionStart => "startup|resume|clear"
    case PreToolUse => if provider.Codex? then "request_user_input" else "AskUserQuestion"
    case PermissionRequest => "*"
  }

  function Group(event: HookEvent, command: string, provider: Provider): Json {
    Obj(map["hooks" := Arr([Handler(event, command)]), "matcher" := Str(Matcher(event, provider))])
  }

  function GroupsOf(slot: Option<Json>): seq<Json> {
    if slot.Some? && slot.value.Arr? then slot.value.items else []
  }

  /** A value that is not an array is replaced. */
  function AppendSlot(slot: Option<Json>, event: HookEvent, command: string, provider: Provider): Option<Json> {
    if AlreadyInstalled(GroupsOf(slot), command) then slot
    else Some(Arr(GroupsOf(slot) + [Group(event, command, provider)]))
  }

  function AppendEvent(hooks: map<string, Json>, event: HookEvent, command: string,
                       provider: Provider): map<string, Json>
  {
    var slot := AppendSlot(Slot(hooks, Name(event)), event, command, provider);
    if slot.Some? then hooks[Name(event) := slot.value] else hooks
  }

  function AppendEvents(hooks: map<string, Json>, events: seq<HookEvent>, command: string,
                        provider: Provider): map<string, Json>
    decreases |events|
  {
    if events == [] then hooks
    else AppendEvents(AppendEvent(hooks, events[0], command, provider), events[1..], command, provider)
  }

  function Appended(root: map<string, Json>, command: string, provider: Provider): map<string, Json> {
    root["hooks" := Obj(AppendEvents(HooksOf(root), EVENTS, command, provider))]
  }

  function Installed(root: map<string, Json>, command: string, provider: Provider,
                     zimlo: string -> bool): map<string, Json>
  {
    Appended(Removed(root, zimlo), command, provider)
  }

  // ------------------------------------------------------------- event by event

  lemma SlotOfRemoved(hooks: map<string, Json>, zimlo: string -> bool, key: string)
    ensures Slot(RemoveFromHooks(hooks, zimlo), key) == RemoveSlot(Slot(hooks, key), zimlo)
  {
  }

  lemma SlotOfAppendEvent(hooks: map<string, Json>, event: HookEvent, command: string, provider: Provider, key: string)
    ensures Slot(AppendEvent(hooks, event, command, provider), key) ==
            if key == Name(event) then AppendSlot(Slot(hooks, key), event, command, provider) else Slot(hooks, key)
  {
  }

  /** Each of the three events is appended to once, and nothing else is. */
  lemma SlotOfAppended(hooks: map<string, Json>, command: string, provider: Provider, key: string, event: HookEvent)
    ensures var appended := AppendEvents(hooks, EVENTS, command, provider);
            && Slot(appended, Name(event)) == AppendSlot(Slot(hooks, Name(event)), event, command, provider)
            && ((forall e: HookEvent :: key != Name(e)) ==> Slot(appended, key) == Slot(hooks, key))
  {
    var h1 := AppendEvent(hooks, SessionStart, command, provider);
    var h2 := AppendEvent(h1, PreToolUse, command, provider);
    var h3 := AppendEvent(h2, PermissionRequest, command, provider);
    assert AppendEvents(hooks, EVENTS, command, provider) == h3 by {
      assert EVENTS[1..] == [PreToolUse, PermissionRequest] && EVENTS[1..][1..] == [PermissionRequest] &&
             EVENTS[1..][1..][1..] == [];
      assert AppendEvents(h3, [], command, provider) == h3;
      assert AppendEvents(h2, [PermissionRequest], command, provider) == h3;
      assert AppendEvents(h1, [PreToolUse, PermissionRequest], command, provider) == h3;
    }
    NamesDiffer(SessionStart, PreToolUse);
    NamesDiffer(SessionStart, PermissionRequest);
    NamesDiffer(PreToolUse, PermissionRequest);
    var k := Name(event);
    SlotOfAppendEvent(hooks, SessionStart, command, provider, k);
    SlotOfAppendEvent(h1, PreToolUse, command, provider, k);
    SlotOfAppendEvent(h2, PermissionRequest, command, provider, k);
    if forall e: HookEvent :: key != Name(e) {
      SlotOfAppendEvent(hooks, SessionStart, command, provider, key);
      SlotOfAppendEvent(h1, PreToolUse, command, provider, key);
      SlotOfAppendEvent(h2, PermissionRequest, command, provider, key);
    }
  }

  lemma SameSlotsSameHooks(x: map<string, Json>, y: map<string, Json>)
    requires forall key :: Slot(x, key) == Slot(y, key)
    ensures x == y
  {
    forall key ensures key in x <==> key in y {
      assert Slot(x, key) == Slot(y, key);
    }
    forall key | key in x ensures x[key] == y[key] {
      assert Slot(x, key) == Slot(y, key);
    }
  }

  // ----------------------------------------------------------- about groups

  predicate FreeGroup(group: Json, zimlo: string -> bool) {
    HasHandlers(group) ==> forall i :: 0 <= i < |Handlers(group)| ==> !IsZimlo(Handlers(group)[i], zimlo)
  }

  predicate FreeGroups(groups: seq<Json>, zimlo: string -> bool) {
    forall i :: 0 <= i < |groups| ==> FreeGroup(groups[i], zimlo)
  }

  lemma {:induction false} ForeignIsFree(handlers: seq<Json>, zimlo: string -> bool)
    ensures |Foreign(handlers, zimlo)| <= |handlers|
    ensures forall i :: 0 <= i < |Foreign(handlers, zimlo)| ==> !IsZimlo(Foreign(handlers, zimlo)[i], zimlo)
    ensures |Foreign(handlers, zimlo)| == |handlers| <==>
            forall i :: 0 <= i < |handlers| ==> !IsZimlo(handlers[i], zimlo)
    ensures |Foreign(handlers, zimlo)| == |handlers| ==> Foreign(handlers, zimlo) == handlers
  {
    if handlers != [] {
      var rest := handlers[1..];
      ForeignIsFree(rest, zimlo);
      assert forall i :: 0 <= i < |rest| ==> rest[i] == handlers[i + 1];
      assert handlers == [handlers[0]] + rest;
    }
  }

  lemma RemoveFromGroupIsFree(group: Json, zimlo: string -> bool)
    ensures FreeGroups(RemoveFromGroup(group, zimlo), zimlo)
    ensures FreeGroup(group, zimlo) <==> RemoveFromGroup(group, zimlo) == [group]
  {
    if HasHandlers(group) {
      ForeignIsFree(Handlers(group), zimlo);
    }
  }

  lemma {:induction false} RemoveFromGroupsIsFree(groups: seq<Json>, zimlo: string -> bool)
    ensures FreeGroups(RemoveFromGroups(groups, zimlo), zimlo)
    ensures FreeGroups(groups, zimlo) ==> RemoveFromGroups(groups, zimlo) == groups
  {
    if groups != [] {
      RemoveFromGroupIsFree(groups[0], zimlo);
      RemoveFromGroupsIsFree(groups[1..], zimlo);
      assert forall i :: 0 <= i < |groups[1..]| ==> groups[1..][i] == groups[i + 1];
      assert groups == [groups[0]] + groups[1..];
    }
  }

  lemma RegroupJson(a: seq<Json>, b: seq<Json>, c: seq<Json>)
    ensures a + (b + c) == (a + b) + c && [] + a == a
  {
  }

  lemma {:induction false} RemoveFromJoined(x: seq<Json>, y: seq<Json>, zimlo: string -> bool)
    ensures RemoveFromGroups(x + y, zimlo) == RemoveFromGroups(x, zimlo) + RemoveFromGroups(y, zimlo)
  {
    if x == [] {
      assert x + y == y;
      RegroupJson(RemoveFromGroups(y, zimlo), [], []);
    } else {
      RemoveFromJoined(x[1..], y, zimlo);
      assert (x + y)[1..] == x[1..] + y && (x + y)[0] == x[0];
      RegroupJson(RemoveFromGroup(x[0], zimlo), RemoveFromGroups(x[1..], zimlo), RemoveFromGroups(y, zimlo));
    }
  }

  predicate FreeSlot(slot: Option<Json>, zimlo: string -> bool) {
    FreeGroups(GroupsOf(slot), zimlo)
  }

  lemma RemoveSlotIsFree(slot: Option<Json>, zimlo: string -> bool)
    ensures FreeSlot(RemoveSlot(slot, zimlo), zimlo)
    ensures FreeSlot(slot, zimlo) ==> RemoveSlot(slot, zimlo) == slot
  {
    RemoveFromGroupsIsFree(GroupsOf(slot), zimlo);
  }

  lemma OwnGroup(event: HookEvent, command: string, provider: Provider, zimlo: string -> bool)
    ensures var group := Group(event, command, provider);
            && HasHandlers(group) && Handlers(group) == [Handler(event, command)] && GroupRuns(group, command)
            && RemoveFromGroup(group, zimlo) == (if zimlo(command) then [] else [group])
  {
    var group := Group(event, command, provider);
    assert Handlers(group)[0] == Handler(event, command);
    assert Runs(Handlers(group)[0], command);
    assert IsZimlo(Handler(event, command), zimlo) <==> zimlo(command);
    assert Foreign([Handler(event, command)], zimlo) == if zimlo(command) then [] else [Handler(event, command)];
  }

  lemma FreeGroupsRunNothing(groups: seq<Json>, command: string, zimlo: string -> bool)
    requires FreeGroups(groups, zimlo) && zimlo(command)
    ensures !AlreadyInstalled(groups, command)
  {
    assert forall handler :: Runs(handler, command) ==> IsZimlo(handler, zimlo);
    forall i | 0 <= i < |groups| ensures !GroupRuns(groups[i], command) {
      assert FreeGroup(groups[i], zimlo);
    }
  }

  /** Taking out what was just put in leaves the groups, if there were any. */
  lemma RemoveAppended(slot: Option<Json>, event: HookEvent, command: string, provider: Provider, zimlo: string -> bool)
    requires FreeSlot(slot, zimlo) && zimlo(command)
    ensures AppendSlot(slot, event, command, provider) == Some(Arr(GroupsOf(slot) + [Group(event, command, provider)]))
    ensures RemoveSlot(AppendSlot(slot, event, command, provider), zimlo) ==
            if GroupsOf(slot) == [] then None else Some(Arr(GroupsOf(slot)))
  {
    var groups, group := GroupsOf(slot), Group(event, command, provider);
    FreeGroupsRunNothing(groups, command, zimlo);
    RemoveFromJoined(groups, [group], zimlo);
    RemoveFromGroupsIsFree(groups, zimlo);
    OwnGroup(event, command, provider, zimlo);
    assert RemoveFromGroups([group], zimlo) == [] + [];
    assert groups + [] == groups;
  }

  /** A command that is not recognised stays where it was put. */
  lemma AppendedStays(slot: Option<Json>, event: HookEvent, command: string, provider: Provider, zimlo: string -> bool)
    requires FreeSlot(slot, zimlo) && !zimlo(command)
    ensures var there := AppendSlot(slot, event, command, provider);
            FreeSlot(there, zimlo) && AppendSlot(there, event, command, provider) == there
  {
    var groups, group := GroupsOf(slot), Group(event, command, provider);
    OwnGroup(event, command, provider, zimlo);
    RemoveFromGroupIsFree(group, zimlo);
    if !AlreadyInstalled(groups, command) {
      assert (groups + [group])[|groups|] == group;
      assert AlreadyInstalled(groups + [group], command);
    }
  }

  lemma InstallSlotTwice(slot: Option<Json>, event: HookEvent, command: string, provider: Provider,
                         zimlo: string -> bool)
    ensures var once := AppendSlot(RemoveSlot(slot, zimlo), event, command, provider);
            AppendSlot(RemoveSlot(once, zimlo), event, command, provider) == once
  {
    var free := RemoveSlot(slot, zimlo);
    RemoveSlotIsFree(slot, zimlo);
    if zimlo(command) {
      RemoveAppended(free, event, command, provider, zimlo);
      var back := RemoveSlot(AppendSlot(free, event, command, provider), zimlo);
      assert GroupsOf(back) == GroupsOf(free);
      RemoveAppended(back, event, command, provider, zimlo);
    } else {
      AppendedStays(free, event, command, provider, zimlo);
      RemoveSlotIsFree(AppendSlot(free, event, command, provider), zimlo);
    }
  }

  // ----------------------------------------------------------------- main results

  /** The slot of an event, or of any other key, after an install. */
  lemma SlotOfInstalled(root: map<string, Json>, command: string, provider: Provider, zimlo: string -> bool,
                        key: string, event: HookEvent)
    ensures var before, after := HooksOf(root), HooksOf(Installed(root, command, provider, zimlo));
            && Slot(after, Name(event)) ==
               AppendSlot(RemoveSlot(Slot(before, Name(event)), zimlo), event, command, provider)
            && ((forall e: HookEvent :: key != Name(e)) ==> Slot(after, key) == RemoveSlot(Slot(before, key), zimlo))
  {
    var between := HooksOf(Removed(root, zimlo));
    SlotOfRemovedRoot(root, zimlo, key);
    SlotOfRemovedRoot(root, zimlo, Name(event));
    SlotOfAppended(between, command, provider, key, event);
  }

  lemma SlotOfRemovedRoot(root: map<string, Json>, zimlo: string -> bool, key: string)
    ensures Slot(HooksOf(Removed(root, zimlo)), key) == RemoveSlot(Slot(HooksOf(root), key), zimlo)
  {
    if HasHooks(root) {
      SlotOfRemoved(HooksOf(root), zimlo, key);
    }
  }

  predicate IsEventName(key: string) {
    exists e: HookEvent :: key == Name(e)
  }

  lemma SlotInstalledTwice(root: map<string, Json>, command: string, provider: Provider, zimlo: string -> bool,
                           key: string)
    ensures var once := Installed(root, command, provider, zimlo);
            Slot(HooksOf(Installed(once, command, provider, zimlo)), key) == Slot(HooksOf(once), key)
  {
    var once := Installed(root, command, provider, zimlo);
    if IsEventName(key) {
      var event: HookEvent :| key == Name(event);
      SlotOfInstalled(root, command, provider, zimlo, key, event);
      SlotOfInstalled(once, command, provider, zimlo, key, event);
      InstallSlotTwice(Slot(HooksOf(root), key), event, command, provider, zimlo);
    } else {
      SlotOfInstalled(root, command, provider, zimlo, key, SessionStart);
      SlotOfInstalled(once, command, provider, zimlo, key, SessionStart);
      RemoveSlotIsFree(Slot(HooksOf(root), key), zimlo);
      RemoveSlotIsFree(RemoveSlot(Slot(HooksOf(root), key), zimlo), zimlo);
    }
  }

  /** Everything beside `hooks` is left as it was. */
  lemma RemovedKeepsOtherFields(root: map<string, Json>, zimlo: string -> bool)
    ensures Removed(root, zimlo) == if HasHooks(root) then root["hooks" := Obj(HooksOf(Removed(root, zimlo)))] else root
  {
  }

  lemma InstalledKeepsOtherFields(root: map<string, Json>, command: string, provider: Provider, zimlo: string -> bool)
    ensures var installed := Installed(root, command, provider, zimlo);
            HasHooks(installed) && installed == root["hooks" := Obj(HooksOf(installed))]
  {
    RemovedKeepsOtherFields(root, zimlo);
  }

  /** Installing is idempotent, on every configuration and for every command. */
  lemma InstallIsIdempotent(root: map<string, Json>, command: string, provider: Provider, zimlo: string -> bool)
    ensures var once := Installed(root, command, provider, zimlo); Installed(once, command, provider, zimlo) == once
  {
    var once := Installed(root, command, provider, zimlo);
    var twice := Installed(once, command, provider, zimlo);
    forall key ensures Slot(HooksOf(twice), key) == Slot(HooksOf(once), key) {
      SlotInstalledTwice(root, command, provider, zimlo, key);
    }
    SameSlotsSameHooks(HooksOf(twice), HooksOf(once));
    InstalledKeepsOtherFields(root, command, provider, zimlo);
    InstalledKeepsOtherFields(once, command, provider, zimlo);
  }

  ghost predicate ZimloFree(root: map<string, Json>, zimlo: string -> bool) {
    forall key :: FreeSlot(Slot(HooksOf(root), key), zimlo)
  }

  /** Absent, or an array with at least one group. */
  predicate Keepable(slot: Option<Json>) {
    slot.Some? ==> slot.value.Arr? && slot.value.items != []
  }

  predicate Restorable(root: map<string, Json>) {
    ("hooks" in root ==> root["hooks"].Obj?) && forall e: HookEvent :: Keepable(Slot(HooksOf(root), Name(e)))
  }

  predicate SameUpToEmptyHooks(after: map<string, Json>, before: map<string, Json>) {
    after == if "hooks" in before then before else before["hooks" := Obj(map[])]
  }

  lemma SlotOfUninstalled(root: map<string, Json>, command: string, provider: Provider, zimlo: string -> bool,
                          key: string)
    requires ZimloFree(root, zimlo) && zimlo(command)
    ensures var slot := Slot(HooksOf(root), key);
            Slot(HooksOf(Removed(Installed(root, command, provider, zimlo), zimlo)), key) ==
            if IsEventName(key) && !Keepable(slot) then None else slot
  {
    var installed, slot := Installed(root, command, provider, zimlo), Slot(HooksOf(root), key);
    SlotOfRemovedRoot(installed, zimlo, key);
    assert FreeSlot(slot, zimlo);
    RemoveSlotIsFree(slot, zimlo);
    if IsEventName(key) {
      var event: HookEvent :| key == Name(event);
      SlotOfInstalled(root, command, provider, zimlo, key, event);
      RemoveAppended(slot, event, command, provider, zimlo);
    } else {
      SlotOfInstalled(root, command, provider, zimlo, key, SessionStart);
    }
  }

  lemma UninstalledKeepsOtherFields(root: map<string, Json>, command: string, provider: Provider, zimlo: string -> bool)
    ensures var after := Removed(Installed(root, command, provider, zimlo), zimlo);
            after == root["hooks" := Obj(HooksOf(after))]
  {
    InstalledKeepsOtherFields(root, command, provider, zimlo);
    RemovedKeepsOtherFields(Installed(root, command, provider, zimlo), zimlo);
  }

  lemma RestorableIsRestored(root: map<string, Json>, command: string, provider: Provider, zimlo: string -> bool)
    requires ZimloFree(root, zimlo) && zimlo(command) && Restorable(root)
    ensures SameUpToEmptyHooks(Removed(Installed(root, command, provider, zimlo), zimlo), root)
  {
    HooksAreRestored(root, command, provider, zimlo);
    UninstalledKeepsOtherFields(root, command, provider, zimlo);
    HooksPutBack(root);
  }

  lemma HooksAreRestored(root: map<string, Json>, command: string, provider: Provider, zimlo: string -> bool)
    requires ZimloFree(root, zimlo) && zimlo(command) && Restorable(root)
    ensures HooksOf(Removed(Installed(root, command, provider, zimlo), zimlo)) == HooksOf(root)
  {
    var after := Removed(Installed(root, command, provider, zimlo), zimlo);
    forall key ensures Slot(HooksOf(after), key) == Slot(HooksOf(root), key) {
      SlotOfUninstalled(root, command, provider, zimlo, key);
    }
    SameSlotsSameHooks(HooksOf(after), HooksOf(root));
  }

  lemma HooksPutBack(root: map<string, Json>)
    requires "hooks" in root ==> root["hooks"].Obj?
    ensures SameUpToEmptyHooks(root["hooks" := Obj(HooksOf(root))], root)
  {
  }

  lemma RestoredIsRestorable(root: map<string, Json>, command: string, provider: Provider, zimlo: string -> bool)
    requires ZimloFree(root, zimlo) && zimlo(command)
    requires SameUpToEmptyHooks(Removed(Installed(root, command, provider, zimlo), zimlo), root)
    ensures Restorable(root)
  {
    var after := Removed(Installed(root, command, provider, zimlo), zimlo);
    UninstalledKeepsOtherFields(root, command, provider, zimlo);
    assert after["hooks"].Obj?;
    forall e: HookEvent ensures Keepable(Slot(HooksOf(root), Name(e))) {
      SlotOfUninstalled(root, command, provider, zimlo, Name(e));
      assert IsEventName(Name(e));
    }
  }

  /** Uninstalling after installing gives back a Zimlo-free configuration, up to
      an empty `hooks` object, exactly when its hooks are an object and none of
      the three events holds an empty array or something else than an array. */
  lemma UninstallUndoesInstall(root: map<string, Json>, command: string, provider: Provider, zimlo: string -> bool)
    requires ZimloFree(root, zimlo) && zimlo(command)
    ensures SameUpToEmptyHooks(Removed(Installed(root, command, provider, zimlo), zimlo), root) <==> Restorable(root)
  {
    if Restorable(root) {
      RestorableIsRestored(root, command, provider, zimlo);
    }
    if SameUpToEmptyHooks(Removed(Installed(root, command, provider, zimlo), zimlo), root) {
      RestoredIsRestorable(root, command, provider, zimlo);
    }
  }

  /** After an install each of the three events ends in Zimlo's group and holds no
      other Zimlo handler; nor does any other event. */
  lemma InstalledExactlyOnce(root: map<string, Json>, command: string, provider: Provider, zimlo: string -> bool,
                             key: string, event: HookEvent)
    requires zimlo(command)
    ensures var hooks := HooksOf(Installed(root, command, provider, zimlo));
            && (exists groups ::
                  FreeGroups(groups, zimlo) &&
                  Slot(hooks, Name(event)) == Some(Arr(groups + [Group(event, command, provider)])))
            && (!IsEventName(key) ==> FreeSlot(Slot(hooks, key), zimlo))
  {
    SlotOfInstalled(root, command, provider, zimlo, key, event);
    var slot := Slot(HooksOf(root), Name(event));
    RemoveSlotIsFree(slot, zimlo);
    RemoveSlotIsFree(Slot(HooksOf(root), key), zimlo);
    RemoveAppended(RemoveSlot(slot, zimlo), event, command, provider, zimlo);
  }

  // ----------------------------------------------------------- foreign handlers

  /** A group without its handlers, paired with each handler that is not Zimlo's;
      a group of another shape stands for itself. */
  function PairsOf(group: Json, zimlo: string -> bool): seq<(Json, Option<Json>)> {
    if !HasHandlers(group) then [(group, None)]
    else Tagged(Obj(group.fields - {"hooks"}), Foreign(Handlers(group), zimlo))
  }

  function Tagged(group: Json, handlers: seq<Json>): seq<(Json, Option<Json>)> {
    if handlers == [] then [] else [(group, Some(handlers[0]))] + Tagged(group, handlers[1..])
  }

  function ForeignHandlers(groups: seq<Json>, zimlo: string -> bool): seq<(Json, Option<Json>)> {
    if groups == [] then [] else PairsOf(groups[0], zimlo) + ForeignHandlers(groups[1..], zimlo)
  }

  function ForeignAt(root: map<string, Json>, key: string, zimlo: string -> bool): seq<(Json, Option<Json>)> {
    ForeignHandlers(GroupsOf(Slot(HooksOf(root), key)), zimlo)
  }

  lemma {:induction false} ForeignOfFree(handlers: seq<Json>, zimlo: string -> bool)
    requires forall i :: 0 <= i < |handlers| ==> !IsZimlo(handlers[i], zimlo)
    ensures Foreign(handlers, zimlo) == handlers
  {
    ForeignIsFree(handlers, zimlo);
  }

  lemma RegroupPairs(a: seq<(Json, Option<Json>)>, b: seq<(Json, Option<Json>)>, c: seq<(Json, Option<Json>)>)
    ensures a + (b + c) == (a + b) + c && [] + a == a
  {
  }

  lemma ForeignUnfolds(first: Json, rest: seq<Json>, zimlo: string -> bool)
    ensures ForeignHandlers([first] + rest, zimlo) == PairsOf(first, zimlo) + ForeignHandlers(rest, zimlo)
  {
    assert ([first] + rest)[1..] == rest;
  }

  lemma {:induction false} ForeignOfJoined(x: seq<Json>, y: seq<Json>, zimlo: string -> bool)
    ensures ForeignHandlers(x + y, zimlo) == ForeignHandlers(x, zimlo) + ForeignHandlers(y, zimlo)
  {
    if x == [] {
      assert x + y == y;
      RegroupPairs(ForeignHandlers(y, zimlo), [], []);
    } else {
      ForeignOfJoined(x[1..], y, zimlo);
      assert x + y == [x[0]] + (x[1..] + y);
      ForeignUnfolds(x[0], x[1..] + y, zimlo);
      RegroupPairs(PairsOf(x[0], zimlo), ForeignHandlers(x[1..], zimlo), ForeignHandlers(y, zimlo));
    }
  }

  lemma RemoveFromGroupKeepsForeign(group: Json, zimlo: string -> bool)
    ensures ForeignHandlers(RemoveFromGroup(group, zimlo), zimlo) == PairsOf(group, zimlo)
  {
    var kept := RemoveFromGroup(group, zimlo);
    if HasHandlers(group) && |Foreign(Handlers(group), zimlo)| != |Handlers(group)| {
      var remaining := Foreign(Handlers(group), zimlo);
      if remaining != [] {
        var smaller := Obj(group.fields["hooks" := Arr(remaining)]);
        ForeignIsFree(Handlers(group), zimlo);
        ForeignOfFree(remaining, zimlo);
        assert smaller.fields - {"hooks"} == group.fields - {"hooks"};
        assert PairsOf(smaller, zimlo) == PairsOf(group, zimlo);
        assert kept == [smaller] && kept[1..] == [];
      }
    } else {
      assert kept == [group] && kept[1..] == [];
    }
  }

  lemma {:induction false} RemoveFromGroupsKeepsForeign(groups: seq<Json>, zimlo: string -> bool)
    ensures ForeignHandlers(RemoveFromGroups(groups, zimlo), zimlo) == ForeignHandlers(groups, zimlo)
  {
    if groups != [] {
      RemoveFromGroupKeepsForeign(groups[0], zimlo);
      RemoveFromGroupsKeepsForeign(groups[1..], zimlo);
      ForeignOfJoined(RemoveFromGroup(groups[0], zimlo), RemoveFromGroups(groups[1..], zimlo), zimlo);
    }
  }

  lemma AppendSlotKeepsForeign(slot: Option<Json>, event: HookEvent, command: string, provider: Provider,
                               zimlo: string -> bool)
    requires zimlo(command)
    ensures ForeignHandlers(GroupsOf(AppendSlot(slot, event, command, provider)), zimlo) ==
            ForeignHandlers(GroupsOf(slot), zimlo)
  {
    var group := Group(event, command, provider);
    OwnGroup(event, command, provider, zimlo);
    assert Foreign([Handler(event, command)], zimlo) == [];
    assert ForeignHandlers([group], zimlo) == PairsOf(group, zimlo) + ForeignHandlers([group][1..], zimlo) == [];
    ForeignOfJoined(GroupsOf(slot), [group], zimlo);
  }

  /** Under install and uninstall every foreign handler keeps its event, its group
      and its order. */
  lemma ForeignHandlersStay(root: map<string, Json>, command: string, provider: Provider, zimlo: string -> bool,
                            key: string)
    ensures ForeignAt(Removed(root, zimlo), key, zimlo) == ForeignAt(root, key, zimlo)
    ensures zimlo(command) ==>
              ForeignAt(Installed(root, command, provider, zimlo), key, zimlo) == ForeignAt(root, key, zimlo)
  {
    var slot := Slot(HooksOf(root), key);
    SlotOfRemovedRoot(root, zimlo, key);
    RemoveFromGroupsKeepsForeign(GroupsOf(slot), zimlo);
    assert ForeignHandlers(GroupsOf(RemoveSlot(slot, zimlo)), zimlo) == ForeignHandlers(GroupsOf(slot), zimlo);
    if zimlo(command) {
      if IsEventName(key) {
        var event: HookEvent :| key == Name(event);
        SlotOfInstalled(root, command, provider, zimlo, key, event);
        AppendSlotKeepsForeign(RemoveSlot(slot, zimlo), event, command, provider, zimlo);
      } else {
        SlotOfInstalled(root, command, provider, zimlo, key, SessionStart);
      }
    }
  }

  // ------------------------------------------------------------ the command line

  function Lower(c: char): char {
    if 'A' <= c <= 'Z' then c - 'A' + 'a' else c
  }

  predicate PrefixIgnoringCase(s: string, prefix: string) {
    |prefix| <= |s| && forall i :: 0 <= i < |prefix| ==> Lower(s[i]) == prefix[i]
  }

  predicate Mentions(s: string, word: string) {
    exists i :: 0 <= i <= |s| && PrefixIgnoringCase(s[i..], word)
  }

  predicate Contains(s: string, part: string) {
    exists i :: 0 <= i <= |s| && part <= s[i..]
  }

  const MARK := "hook --provider "

  function ProviderName(provider: Provider): string {
    if provider.Codex? then "codex" else "claude"
  }

  /** What the removal recognises: the word and the provider's own flag. */
  predicate Recognised(provider: Provider, command: string) {
    Mentions(command, "zimlo") && Contains(command, MARK + ProviderName(provider))
  }

  function Escape(value: string): string {
    if value == "" then ""
    else (if value[0] == '\'' then "'\"'\"'" else [value[0]]) + Escape(value[1..])
  }

  function ShellQuote(value: string): string {
    "'" + Escape(value) + "'"
  }

  function ZimloHookCommand(entrypoint: string, provider: Provider, nodePath: string): string {
    ShellQuote(nodePath) + " " + ShellQuote(entrypoint) + " " + (MARK + ProviderName(provider)) + " --surface auto"
  }

  /** Zimlo finds its own command again whenever its quoted entry point, or the
      path of node, names Zimlo. */
  lemma OwnCommandIsRecognised(entrypoint: string, provider: Provider, nodePath: string)
    requires Mentions(ShellQuote(entrypoint), "zimlo") || Mentions(ShellQuote(nodePath), "zimlo")
    ensures Recognised(provider, ZimloHookCommand(entrypoint, provider, nodePath))
  {
    JoinedIsRecognised(ShellQuote(nodePath), ShellQuote(entrypoint), MARK + ProviderName(provider), " --surface auto");
  }

  lemma JoinedIsRecognised(node: string, entry: string, flag: string, rest: string)
    requires Mentions(entry, "zimlo") || Mentions(node, "zimlo")
    ensures Mentions(node + " " + entry + " " + flag + rest, "zimlo") &&
            Contains(node + " " + entry + " " + flag + rest, flag)
  {
    ContainsMiddle(node + " " + entry + " ", flag, rest);
    CommandParts(node, entry, flag, rest);
    if Mentions(entry, "zimlo") {
      MentionsPart(node + " ", entry, " " + (flag + rest), "zimlo");
      BehindEntry(node, entry, flag + rest);
    } else {
      MentionsPart("", node, " " + (entry + " " + (flag + rest)), "zimlo");
      BehindNode(node, entry + " " + (flag + rest));
    }
  }

  lemma CommandParts(node: string, entry: string, flag: string, rest: string)
    ensures node + " " + entry + " " + flag + rest == node + " " + (entry + " " + (flag + rest))
  {
  }

  lemma BehindEntry(node: string, entry: string, rest: string)
    ensures node + " " + entry + (" " + rest) == node + " " + (entry + " " + rest)
  {
  }

  lemma BehindNode(node: string, rest: string)
    ensures "" + node + (" " + rest) == node + " " + rest
  {
  }

  lemma ContainsMiddle(before: string, part: string, after: string)
    ensures Contains(before + part + after, part)
  {
    assert (before + part + after)[|before|..] == part + after;
  }

  lemma MentionsPart(before: string, part: string, after: string, word: string)
    requires Mentions(part, word)
    ensures Mentions(before + part + after, word)
  {
    var i :| 0 <= i <= |part| && PrefixIgnoringCase(part[i..], word);
    var s, k := before + part + after, |before| + i;
    assert s[k..] == part[i..] + after;
    assert PrefixIgnoringCase(s[k..], word);
  }

  // ------------------------------------------------------------- what a shell reads

  datatype Quoting = Unquoted | Single | Double

  /** Characters that a shell reads as themselves, outside quotes. */
  predicate IsPlain(c: char) {
    'a' <= c <= 'z' || 'A' <= c <= 'Z' || '0' <= c <= '9' || c in "-_./:,+@%"
  }

  /** The words of a command line (section 2.2 of the POSIX Shell Command Language),
      nothing when it holds more than words: `word` is the one begun, if any. */
  function ShellWords(s: string, quoting: Quoting, word: Option<string>, done: seq<string>): Option<seq<string>> {
    var begun := if word.Some? then word.value else "";
    if s == "" then if quoting.Unquoted? then Some(if word.Some? then done + [begun] else done) else None
    else
      match quoting
      case Single =>
        if s[0] == '\'' then ShellWords(s[1..], Unquoted, word, done)
        else ShellWords(s[1..], Single, Some(begun + [s[0]]), done)
      case Double =>
        if s[0] == '"' then ShellWords(s[1..], Unquoted, word, done)
        else if s[0] in "$`\\" then None
        else ShellWords(s[1..], Double, Some(begun + [s[0]]), done)
      case Unquoted =>
        if s[0] == '\'' then ShellWords(s[1..], Single, Some(begun), done)
        else if s[0] == '"' then ShellWords(s[1..], Double, Some(begun), done)
        else if s[0] == ' ' then ShellWords(s[1..], Unquoted, None, if word.Some? then done + [begun] else done)
        else if IsPlain(s[0]) then ShellWords(s[1..], Unquoted, Some(begun + [s[0]]), done)
        else None
  }

  lemma OneCharacter(c: char, rest: string, word: Option<string>, done: seq<string>)
    ensures var begun := if word.Some? then word.value else "";
            && ShellWords([c] + rest, Single, word, done) ==
               (if c == '\'' then ShellWords(rest, Unquoted, word, done)
                else ShellWords(rest, Single, Some(begun + [c]), done))
            && (c == '"' ==> ShellWords([c] + rest, Double, word, done) == ShellWords(rest, Unquoted, word, done))
            && (c == '\'' ==>
                  ShellWords([c] + rest, Double, word, done) == ShellWords(rest, Double, Some(begun + [c]), done))
            && (c == '\'' ==>
                  ShellWords([c] + rest, Unquoted, word, done) == ShellWords(rest, Single, Some(begun), done))
            && (c == '"' ==>
                  ShellWords([c] + rest, Unquoted, word, done) == ShellWords(rest, Double, Some(begun), done))
            && (IsPlain(c) ==>
                  ShellWords([c] + rest, Unquoted, word, done) == ShellWords(rest, Unquoted, Some(begun + [c]), done))
  {
    assert ([c] + rest)[1..] == rest;
  }

  lemma QuoteIsRead(rest: string, begun: string, done: seq<string>)
    ensures ShellWords("'\"'\"'" + rest, Single, Some(begun), done) == ShellWords(rest, Single, Some(begun + "'"), done)
  {
    var last := "'" + rest;
    var fourth := "\"" + last;
    var third := "'" + fourth;
    var second := "\"" + third;
    assert "'\"'\"'" + rest == "'" + second;
    OneCharacter('\'', second, Some(begun), done);
    OneCharacter('"', third, Some(begun), done);
    OneCharacter('\'', fourth, Some(begun), done);
    OneCharacter('"', last, Some(begun + "'"), done);
    OneCharacter('\'', rest, Some(begun + "'"), done);
  }

  lemma {:induction false} EscapedIsRead(value: string, rest: string, begun: string, done: seq<string>)
    ensures ShellWords(Escape(value) + "'" + rest, Single, Some(begun), done) ==
            ShellWords(rest, Unquoted, Some(begun + value), done)
  {
    var s := Escape(value) + "'" + rest;
    if value == "" {
      assert s[1..] == rest && begun + value == begun;
    } else {
      var behind := Escape(value[1..]) + "'" + rest;
      EscapedIsRead(value[1..], rest, begun + [value[0]], done);
      assert begun + [value[0]] + value[1..] == begun + value;
      if value[0] == '\'' {
        QuoteIsRead(behind, begun, done);
        assert s == "'\"'\"'" + behind;
      } else {
        assert s[1..] == behind;
      }
    }
  }

  /** A quoted value is one word, whatever characters it holds. */
  lemma QuotedIsOneWord(value: string, rest: string, done: seq<string>)
    ensures ShellWords(ShellQuote(value) + " " + rest, Unquoted, None, done) ==
            ShellWords(rest, Unquoted, None, done + [value])
  {
    var s := ShellQuote(value) + " " + rest;
    assert s[1..] == Escape(value) + "'" + (" " + rest);
    EscapedIsRead(value, " " + rest, "", done);
    assert "" + value == value && (" " + rest)[1..] == rest;
  }

  lemma {:induction false} PlainIsOneWord(plain: string, rest: string, begun: string, done: seq<string>)
    requires forall i :: 0 <= i < |plain| ==> IsPlain(plain[i])
    ensures ShellWords(plain + " " + rest, Unquoted, Some(begun), done) ==
            ShellWords(rest, Unquoted, None, done + [begun + plain])
  {
    var s := plain + " " + rest;
    if plain == "" {
      assert s[1..] == rest && begun + plain == begun;
    } else {
      PlainIsOneWord(plain[1..], rest, begun + [plain[0]], done);
      assert s[1..] == plain[1..] + " " + rest && begun + [plain[0]] + plain[1..] == begun + plain;
    }
  }

  lemma NextPlainWord(plain: string, rest: string, done: seq<string>)
    requires plain != "" && forall i :: 0 <= i < |plain| ==> IsPlain(plain[i])
    ensures ShellWords(plain + " " + rest, Unquoted, None, done) == ShellWords(rest, Unquoted, None, done + [plain])
  {
    assert plain + " " + rest == [plain[0]] + (plain[1..] + " " + rest) && "" + [plain[0]] == [plain[0]];
    OneCharacter(plain[0], plain[1..] + " " + rest, None, done);
    PlainIsOneWord(plain[1..], rest, [plain[0]], done);
    assert [plain[0]] + plain[1..] == plain;
  }

  lemma {:induction false} LastPlainWord(plain: string, begun: string, done: seq<string>)
    requires forall i :: 0 <= i < |plain| ==> IsPlain(plain[i])
    ensures ShellWords(plain, Unquoted, Some(begun), done) == Some(done + [begun + plain])
  {
    if plain == "" {
      assert begun + plain == begun;
    } else {
      assert plain == [plain[0]] + plain[1..];
      OneCharacter(plain[0], plain[1..], Some(begun), done);
      LastPlainWord(plain[1..], begun + [plain[0]], done);
      assert begun + [plain[0]] + plain[1..] == begun + plain;
    }
  }

  lemma FlagsAreRead(name: string, done: seq<string>)
    requires name != "" && forall i :: 0 <= i < |name| ==> IsPlain(name[i])
    ensures ShellWords("hook" + " " + ("--provider" + " " + (name + " " + ("--surface" + " " + "auto"))),
                       Unquoted, None, done) ==
            Some(done + ["hook"] + ["--provider"] + [name] + ["--surface"] + ["auto"])
  {
    var surface := "--surface" + " " + "auto";
    var named := name + " " + surface;
    NextPlainWord("hook", "--provider" + " " + named, done);
    NextPlainWord("--provider", named, done + ["hook"]);
    NextPlainWord(name, surface, done + ["hook"] + ["--provider"]);
    NextPlainWord("--surface", "auto", done + ["hook"] + ["--provider"] + [name]);
    assert "auto" == ['a'] + "uto" && "" + ['a'] == "a" && "a" + "uto" == "auto";
    OneCharacter('a', "uto", None, done + ["hook"] + ["--provider"] + [name] + ["--surface"]);
    LastPlainWord("uto", "a", done + ["hook"] + ["--provider"] + [name] + ["--surface"]);
  }

  lemma FlagsAre(name: string)
    ensures MARK + name + " --surface auto" ==
            "hook" + " " + ("--provider" + " " + (name + " " + ("--surface" + " " + "auto")))
  {
    assert MARK == "hook" + " " + "--provider" + " " && " --surface auto" == " " + ("--surface" + " " + "auto");
  }

  /** A shell runs node on the entry point with the hook's arguments, whatever the
      paths hold: no character of theirs is taken for anything else. */
  lemma CommandIsRead(entrypoint: string, provider: Provider, nodePath: string)
    ensures ShellWords(ZimloHookCommand(entrypoint, provider, nodePath), Unquoted, None, []) ==
            Some([nodePath, entrypoint, "hook", "--provider", if provider.Codex? then "codex" else "claude",
                  "--surface", "auto"])
  {
    var name, read := ProviderName(provider), [nodePath, entrypoint];
    var flags := MARK + name + " --surface auto";
    CommandParts(ShellQuote(nodePath), ShellQuote(entrypoint), MARK + name, " --surface auto");
    QuotedIsOneWord(nodePath, ShellQuote(entrypoint) + " " + flags, []);
    QuotedIsOneWord(entrypoint, flags, [nodePath]);
    FlagsAre(name);
    FlagsAreRead(name, read);
    assert [] + [nodePath] == [nodePath] && [nodePath] + [entrypoint] == read;
    assert read + ["hook"] + ["--provider"] + [name] + ["--surface"] + ["auto"] ==
           [nodePath, entrypoint, "hook", "--provider", name, "--surface", "auto"];
  }

  // -------------------------------------------------------------------- the edits

  /** Edits a copy of the hooks, event by event. */
  method RemoveZimloCommands(root: map<string, Json>, zimlo: string -> bool) returns (next: map<string, Json>)
    ensures next == Removed(root, zimlo)
  {
    if !HasHooks(root) {
      return root;
    }
    var before := root["hooks"].fields;
    var hooks, remaining := before, before.Keys;
    while remaining != {}
      invariant remaining <= before.Keys
      invariant forall key ::
                  Slot(hooks, key) ==
                  if key in before && key !in remaining then RemoveSlot(Slot(before, key), zimlo) else Slot(before, key)
      decreases remaining
    {
      var event :| event in remaining;
      remaining := remaining - {event};
      var value := before[event];
      if value.Arr? && value.items != [] {
        var groups := RemoveFromGroups(value.items, zimlo);
        if groups != [] {
          hooks := hooks[event := Arr(groups)];
        } else {
          hooks := hooks - {event};
        }
      }
    }
    forall key ensures Slot(hooks, key) == Slot(RemoveFromHooks(before, zimlo), key) {
      SlotOfRemoved(before, zimlo, key);
    }
    SameSlotsSameHooks(hooks, RemoveFromHooks(before, zimlo));
    next := root["hooks" := Obj(hooks)];
  }

  method AppendTo(hooks: map<string, Json>, event: HookEvent, command: string, provider: Provider)
    returns (next: map<string, Json>)
    ensures next == AppendEvent(hooks, event, command, provider)
  {
    next := hooks;
    var groups := if Name(event) in hooks && hooks[Name(event)].Arr? then hooks[Name(event)].items else [];
    if !AlreadyInstalled(groups, command) {
      next := hooks[Name(event) := Arr(groups + [Group(event, command, provider)])];
    }
  }

  method AppendEach(before: map<string, Json>, events: seq<HookEvent>, command: string, provider: Provider)
    returns (hooks: map<string, Json>)
    ensures hooks == AppendEvents(before, events, command, provider)
  {
    hooks := before;
    for i := 0 to |events|
      invariant AppendEvents(hooks, events[i..], command, provider) == AppendEvents(before, events, command, provider)
    {
      assert events[i..][1..] == events[i + 1..];
      hooks := AppendTo(hooks, events[i], command, provider);
    }
  }

  method AppendHooks(root: map<string, Json>, command: string, provider: Provider) returns (next: map<string, Json>)
    ensures next == Appended(root, command, provider)
  {
    var hooks := AppendEach(if HasHooks(root) then root["hooks"].fields else map[], EVENTS, command, provider);
    next := root["hooks" := Obj(hooks)];
  }

  /** The new content of one provider's file; a plugin that owns the Codex hooks
      keeps them out of the user's file. */
  method HookConfigChange(before: map<string, Json>, entrypoint: string, nodePath: string, provider: Provider,
                          uninstall: bool, pluginOwnsHooks: bool)
    returns (after: map<string, Json>)
    ensures var zimlo := command => Recognised(provider, command);
            after == if uninstall || (provider.Codex? && pluginOwnsHooks) then Removed(before, zimlo)
                     else Installed(before, ZimloHookCommand(entrypoint, provider, nodePath), provider, zimlo)
  {
    after := RemoveZimloCommands(before, command => Recognised(provider, command));
    if !uninstall && !(provider.Codex? && pluginOwnsHooks) {
      after := AppendHooks(after, ZimloHookCommand(entrypoint, provider, nodePath), provider);
    }
  }
}
