/** The Bridge's idempotent command store and the service that executes queued
    commands: insertion by unique key, dispatch, retry, cancel, the asynchronous
    continuations of a dispatch, per-session leases and restart recovery. */
module TaskCommands {
  import opened Keys

  datatype CommandState = Queued | Dispatching | Running | Completed | Failed | Canceled

  datatype Kind = CreateTask | FollowUpTask

  datatype TaskCommand = TaskCommand(
    id: string, key: string, kind: Kind, sessionId: Option<string>, workspaceId: Option<string>,
    text: string, materialIds: seq<string>, state: CommandState, error: Option<string>)

  /** `active` is "has a process id"; `working` is status running or waiting. */
  datatype Session = Session(active: bool, working: bool, uncertain: bool, pending: bool, hasCwd: bool)

  /** Where an asynchronous dispatch is suspended. */
  datatype Phase = AwaitingMaterials | InTurn(lease: Option<string>) | Settled

  datatype Flight = Flight(current: TaskCommand, phase: Phase)

  datatype TurnOutcome = Returned(ok: bool, sessionId: Option<string>, message: string) | Threw(message: string)

  /** What the conservation law counts. */
  datatype Mark = Admitted(id: string) | Retried(id: string) | Requeued(id: string) | Launched(id: string)

  /** `leases` maps each leased session to the command whose turn holds it. */
  datatype Bridge = Bridge(
    order: seq<string>, rows: map<string, TaskCommand>,
    active: set<string>, flights: map<string, Flight>, leases: map<string, string>,
    sessions: map<string, Session>, workspaces: set<string>, marks: multiset<Mark>)

  /** `reply` is None when the source returns null or throws. */
  datatype Outcome = Outcome(bridge: Bridge, reply: Option<TaskCommand>)

  const UNTRUSTED_WORKSPACE := "workspace is not trusted"
  const MISSING_SESSION := "task not found"
  const UNCERTAIN_SESSION := "task association is uncertain"
  const MISSING_CWD := "task has no working directory"
  const MATERIALS_NOT_READY := "materials are not uploaded"
  const MATERIALS_TOO_LARGE := "at most 10 materials and 80MB"
  const MAX_MATERIALS := 10
  const MAX_MATERIAL_BYTES := 80 * 1024 * 1024

  const EMPTY := Bridge([], map[], {}, map[], map[], map[], {}, multiset{})

  const BYTE_ORDER_MARK := '\U{FEFF}'

  /** What both JavaScript and Foundation call white space; each adds one character. */
  predicate IsSpace(c: char) {
    || '\t' <= c <= '\r' || c == ' ' || c == '\U{00A0}' || c == '\U{1680}' || '\U{2000}' <= c <= '\U{200A}'
    || c == '\U{2028}' || c == '\U{2029}' || c == '\U{202F}' || c == '\U{205F}' || c == '\U{3000}'
  }

  predicate Strips(c: char, extra: char) {
    IsSpace(c) || c == extra
  }

  function Trimmed(s: string, extra: char): string
    decreases |s|
  {
    if s == "" then ""
    else if Strips(s[0], extra) then Trimmed(s[1..], extra)
    else if Strips(s[|s| - 1], extra) then Trimmed(s[..|s| - 1], extra)
    else s
  }

  function Trim(s: string): string {
    Trimmed(s, BYTE_ORDER_MARK)
  }

  predicate Blank(s: string, extra: char) {
    forall i :: 0 <= i < |s| ==> Strips(s[i], extra)
  }

  lemma BlankSplits(c: char, s: string, extra: char)
    requires Strips(c, extra) && Blank(s, extra)
    ensures Blank([c] + s, extra) && Blank(s + [c], extra)
  {
  }

  /** Trimming takes blanks from both ends, all of them, and nothing else. */
  lemma {:induction false} TrimmedIsTheMiddle(s: string, extra: char) returns (before: string, after: string)
    ensures s == before + Trimmed(s, extra) + after && Blank(before, extra) && Blank(after, extra)
    ensures var t := Trimmed(s, extra); t != "" ==> !Strips(t[0], extra) && !Strips(t[|t| - 1], extra)
    decreases |s|
  {
    if s == "" {
      before, after := "", "";
    } else if Strips(s[0], extra) {
      var rest, t := s[1..], Trimmed(s[1..], extra);
      var x, y := TrimmedIsTheMiddle(rest, extra);
      BlankSplits(s[0], x, extra);
      before, after := [s[0]] + x, y;
      assert s == [s[0]] + rest == [s[0]] + (x + t + y) == before + t + after;
    } else if Strips(s[|s| - 1], extra) {
      var init, last, t := s[..|s| - 1], s[|s| - 1], Trimmed(s[..|s| - 1], extra);
      var x, y := TrimmedIsTheMiddle(init, extra);
      BlankSplits(last, y, extra);
      before, after := x, y + [last];
      assert s == init + [last] == (x + t + y) + [last] == before + t + after;
    } else {
      before, after := "", "";
      assert s == "" + s + "";
    }
  }

  // ---------------------------------------------------------------- the store

  function FindByKey(rows: map<string, TaskCommand>, order: seq<string>, key: string): (found: Option<TaskCommand>)
    ensures found.Some? ==> exists id :: id in order && id in rows && rows[id] == found.value && found.value.key == key
    ensures found.None? ==> forall id :: id in order && id in rows ==> rows[id].key != key
  {
    if order == [] then None
    else if order[0] in rows && rows[order[0]].key == key then Some(rows[order[0]])
    else FindByKey(rows, order[1..], key)
  }

  predicate ReferencesSession(command: TaskCommand, sessions: map<string, Session>) {
    command.sessionId.Some? ==> command.sessionId.value in sessions
  }

  /** Insert unless the id or the key exists; a new row that names an unknown
      session violates its foreign key, which `OR IGNORE` does not suppress. */
  function Insert(b: Bridge, command: TaskCommand): Outcome {
    var existing := FindByKey(b.rows, b.order, command.key);
    if command.id in b.rows || existing.Some? then Outcome(b, existing)
    else if !ReferencesSession(command, b.sessions) then Outcome(b, None)
    else Outcome(
           b.(order := b.order + [command.id], rows := b.rows[command.id := command],
           marks := if command.state.Queued? then b.marks + multiset{Admitted(command.id)} else b.marks),
           Some(command))
  }

  /** The columns an update writes; id, key and kind are never rewritten. None
      when the new row violates the session foreign key. */
  function Update(b: Bridge, command: TaskCommand): Option<Bridge> {
    if command.id !in b.rows then Some(b)
    else if !ReferencesSession(command, b.sessions) then None
    else Some(b.(rows := b.rows[command.id := command.(key := b.rows[command.id].key,
                                                       kind := b.rows[command.id].kind)]))
  }

  function QueuedIn(rows: map<string, TaskCommand>, ids: seq<string>): seq<string> {
    if ids == [] then []
    else if ids[0] in rows && rows[ids[0]].state.Queued? then [ids[0]] + QueuedIn(rows, ids[1..])
    else QueuedIn(rows, ids[1..])
  }

  // ------------------------------------------------------------- dispatching

  predicate SessionBusy(b: Bridge, command: TaskCommand) {
    && command.kind.FollowUpTask? && command.sessionId.Some? && command.sessionId.value in b.sessions
    && var session := b.sessions[command.sessionId.value]; session.active || session.working
  }

  predicate Dispatchable(b: Bridge, id: string) {
    id in b.rows && id !in b.active && !SessionBusy(b, b.rows[id])
  }

  /** The synchronous prefix of a dispatch, up to its first suspension. */
  function Launch(b: Bridge, id: string): Bridge
    requires id in b.rows
  {
    var running := b.rows[id].(state := Running, error := None);
    b.(rows := b.rows[id := running], active := b.active + {id},
    flights := b.flights[id := Flight(running, AwaitingMaterials)],
    marks := b.marks + multiset{Launched(id)})
  }

  function DispatchAll(b: Bridge, ids: seq<string>): Bridge
    decreases |ids|
  {
    if ids == [] then b
    else DispatchAll(if Dispatchable(b, ids[0]) then Launch(b, ids[0]) else b, ids[1..])
  }

  function DispatchPass(b: Bridge): Bridge {
    DispatchAll(b, QueuedIn(b.rows, b.order))
  }

  // ---------------------------------------------------------- client commands

  function FollowUpInvalid(b: Bridge, sessionId: Option<string>): Option<string> {
    if sessionId.None? || sessionId.value !in b.sessions then Some(MISSING_SESSION)
    else
      var session := b.sessions[sessionId.value];
      if session.uncertain || session.pending then Some(UNCERTAIN_SESSION)
      else if !session.hasCwd then Some(MISSING_CWD)
      else None
  }

  function Submission(b: Bridge, command: TaskCommand): Outcome {
    var stored := Insert(b, command);
    if stored.reply.None? then stored else Outcome(DispatchPass(stored.bridge), stored.reply)
  }

  function CreateCommand(b: Bridge, newId: string, key: string, workspaceId: string, text: string,
                         materialIds: seq<string>): TaskCommand
  {
    var trusted := workspaceId in b.workspaces;
    TaskCommand(newId, key, CreateTask, None, Some(workspaceId), Trim(text), materialIds,
                if trusted then Queued else Failed, if trusted then None else Some(UNTRUSTED_WORKSPACE))
  }

  function FollowUpCommand(b: Bridge, newId: string, key: string, sessionId: string, text: string,
                           materialIds: seq<string>): TaskCommand
  {
    var invalid := FollowUpInvalid(b, Some(sessionId));
    TaskCommand(newId, key, FollowUpTask, Some(sessionId), None, Trim(text), materialIds,
                if invalid.Some? then Failed else Queued, invalid)
  }

  function RetryInvalid(b: Bridge, command: TaskCommand): Option<string> {
    if command.kind.CreateTask? then
      if command.workspaceId.Some? && command.workspaceId.value in b.workspaces then None else Some(UNTRUSTED_WORKSPACE)
    else FollowUpInvalid(b, command.sessionId)
  }

  function QueuedAgain(b: Bridge, id: string): Bridge
    requires id in b.rows
  {
    b.(rows := b.rows[id := b.rows[id].(state := Queued, error := None)], marks := b.marks + multiset{Retried(id)})
  }

  function RetryCommand(b: Bridge, id: string): Outcome {
    if id !in b.rows then Outcome(b, None)
    else
      var command := b.rows[id];
      if !command.state.Failed? then Outcome(b, Some(command))
      else
        var invalid := RetryInvalid(b, command);
        if invalid.Some? then
          var refused := command.(error := invalid);
          Outcome(b.(rows := b.rows[id := refused]), Some(refused))
        else
          Outcome(DispatchPass(QueuedAgain(b, id)), Some(QueuedAgain(b, id).rows[id]))
  }

  datatype CancelResult = CancelOk(command: TaskCommand) | CancelNotFound | NotCancelable(command: TaskCommand)

  predicate IsCommandCancelable(state: CommandState) {
    state.Queued?
  }

  function CancelTarget(b: Bridge, id: Option<string>, key: string): Option<TaskCommand> {
    if id.Some? then (if id.value in b.rows then Some(b.rows[id.value]) else None)
    else FindByKey(b.rows, b.order, key)
  }

  function CancelCommand(b: Bridge, id: Option<string>, key: string): (Bridge, CancelResult) {
    var target := CancelTarget(b, id, key);
    if target.None? then (b, CancelNotFound)
    else
      var command := target.value;
      if command.state.Canceled? then (b, CancelOk(command))
      else if !IsCommandCancelable(command.state) then (b, NotCancelable(command))
      else
        var canceled := command.(state := Canceled);
        (b.(rows := b.rows[command.id := canceled]), CancelOk(canceled))
  }

  // ----------------------------------------------- continuations of a dispatch

  function TotalBytes(sizes: seq<Option<nat>>): nat {
    if sizes == [] then 0 else (if sizes[0].Some? then sizes[0].value else 0) + TotalBytes(sizes[1..])
  }

  function MaterialsRefused(sizes: seq<Option<nat>>): Option<string> {
    if None in sizes then Some(MATERIALS_NOT_READY)
    else if |sizes| > MAX_MATERIALS || TotalBytes(sizes) > MAX_MATERIAL_BYTES then Some(MATERIALS_TOO_LARGE)
    else None
  }

  function FinalRow(current: TaskCommand, outcome: TurnOutcome): TaskCommand {
    match outcome
    case Returned(ok, sessionId, message) =>
      current.(sessionId := if sessionId.Some? then sessionId else current.sessionId,
      state := if ok then Completed else Failed,
      error := if ok then current.error else Some(message))
    case Threw(message) => current.(state := Failed, error := Some(message))
  }

  /** The final write of a dispatch. A write that violates the foreign key falls
      into the catch branch; when that write fails too the promise rejects and
      the row keeps its state. */
  function WriteFinal(b: Bridge, current: TaskCommand, outcome: TurnOutcome): Bridge {
    var first := Update(b, FinalRow(current, outcome));
    if first.Some? then first.value
    else
      var second := Update(b, FinalRow(current, Threw("foreign key violation")));
      if second.Some? then second.value else b
  }

  function Settlement(b: Bridge, id: string, outcome: TurnOutcome): Bridge
    requires id in b.flights
  {
    var flight := b.flights[id];
    var freed := if flight.phase.InTurn? && flight.phase.lease.Some? then b.leases - {flight.phase.lease.value}
                 else b.leases;
    WriteFinal(b, flight.current, outcome).(leases := freed, flights := b.flights[id := flight.(phase := Settled)])
  }

  function SendRefused(b: Bridge, sessionId: Option<string>): Option<string> {
    if sessionId.None? || sessionId.value !in b.sessions then Some("session not found")
    else if b.sessions[sessionId.value].active then Some("session runs in another terminal")
    else if sessionId.value in b.leases then Some("session already has a running turn")
    else if !b.sessions[sessionId.value].hasCwd then Some(MISSING_CWD)
    else None
  }

  function MaterialsReady(b: Bridge, id: string, sizes: seq<Option<nat>>): Bridge {
    if id !in b.flights || !b.flights[id].phase.AwaitingMaterials? then b
    else
      var flight := b.flights[id];
      var refused := MaterialsRefused(sizes);
      if refused.Some? then Settlement(b, id, Threw(refused.value))
      else if flight.current.kind.CreateTask? then b.(flights := b.flights[id := flight.(phase := InTurn(None))])
      else
        var sendRefused := SendRefused(b, flight.current.sessionId);
        if sendRefused.Some? then Settlement(b, id, Returned(false, None, sendRefused.value))
        else b.(leases := b.leases[flight.current.sessionId.value := id],
                flights := b.flights[id := flight.(phase := InTurn(flight.current.sessionId))])
  }

  /** `createTask` announces the session it opened before it settles. */
  function SessionAnnounced(b: Bridge, id: string, sessionId: string): Bridge {
    if id !in b.flights || b.flights[id].phase != InTurn(None) then b
    else
      var current := b.flights[id].current.(sessionId := Some(sessionId));
      var written := Update(b, current);
      if written.None? then b
      else written.value.(flights := b.flights[id := b.flights[id].(current := current)])
  }

  function TurnEnded(b: Bridge, id: string, outcome: TurnOutcome): Bridge {
    if id in b.flights && b.flights[id].phase.InTurn? then Settlement(b, id, outcome) else b
  }

  function Released(b: Bridge, id: string): Bridge {
    if id in b.flights && b.flights[id].phase.Settled? then b.(flights := b.flights - {id}, active := b.active - {id})
    else b
  }

  // ------------------------------------------------------------------ restart

  predicate Interrupted(b: Bridge, id: string) {
    id in b.rows && (b.rows[id].state.Dispatching? || b.rows[id].state.Running?)
  }

  function Requeue(b: Bridge, id: string): Bridge
    requires id in b.rows
  {
    b.(rows := b.rows[id := b.rows[id].(state := Queued, error := None)], marks := b.marks + multiset{Requeued(id)})
  }

  function RequeueAll(b: Bridge, ids: seq<string>): Bridge
    decreases |ids|
  {
    if ids == [] then b
    else RequeueAll(if Interrupted(b, ids[0]) then Requeue(b, ids[0]) else b, ids[1..])
  }

  function Restart(b: Bridge): Bridge {
    RequeueAll(b.(active := {}, flights := map[], leases := map[]), b.order)
  }

  /** Sessions are the environment's; a deleted one is nulled in every row. */
  function SessionsChanged(b: Bridge, sessions: map<string, Session>): Bridge {
    b.(sessions := sessions,
    rows := map id | id in b.rows ::
              if ReferencesSession(b.rows[id], sessions) then b.rows[id] else b.rows[id].(sessionId := None))
  }

  // --------------------------------------------------------------------- runs

  datatype Event =
    | Create(newId: string, key: string, workspaceId: string, text: string, materialIds: seq<string>)
    | FollowUp(newId: string, key: string, sessionId: string, text: string, materialIds: seq<string>)
    | Retry(id: string)
    | Cancel(target: Option<string>, key: string)
    | Tick
    | OnMaterials(id: string, sizes: seq<Option<nat>>)
    | OnSession(id: string, sessionId: string)
    | OnTurnEnded(id: string, outcome: TurnOutcome)
    | OnReleased(id: string)
    | BridgeRestart
    | OnSessions(sessions: map<string, Session>)
    | OnWorkspaces(workspaces: set<string>)

  function Step(b: Bridge, e: Event): Bridge {
    match e
    case Create(newId, key, workspaceId, text, materialIds) =>
      Submission(b, CreateCommand(b, newId, key, workspaceId, text, materialIds)).bridge
    case FollowUp(newId, key, sessionId, text, materialIds) =>
      Submission(b, FollowUpCommand(b, newId, key, sessionId, text, materialIds)).bridge
    case Retry(id) => RetryCommand(b, id).bridge
    case Cancel(target, key) => CancelCommand(b, target, key).0
    case Tick => DispatchPass(b)
    case OnMaterials(id, sizes) => MaterialsReady(b, id, sizes)
    case OnSession(id, sessionId) => SessionAnnounced(b, id, sessionId)
    case OnTurnEnded(id, outcome) => TurnEnded(b, id, outcome)
    case OnReleased(id) => Released(b, id)
    case BridgeRestart => Restart(b)
    case OnSessions(sessions) => SessionsChanged(b, sessions)
    case OnWorkspaces(workspaces) => b.(workspaces := workspaces)
  }

  function Run(b: Bridge, events: seq<Event>): Bridge
    decreases |events|
  {
    if events == [] then b else Run(Step(b, events[0]), events[1..])
  }

  // --------------------------------------------------------------- invariants

  predicate SameCommand(x: TaskCommand, y: TaskCommand) {
    x.id == y.id && x.key == y.key && x.kind == y.kind && x.text == y.text && x.materialIds == y.materialIds
  }

  /** One row per id and per key, each listed once. */
  ghost predicate TableOk(b: Bridge) {
    && (forall i, j :: 0 <= i < j < |b.order| ==> b.order[i] != b.order[j])
    && (forall id :: id in b.order <==> id in b.rows)
    && (forall x, y :: x in b.rows && y in b.rows && b.rows[x].key == b.rows[y].key ==> x == y)
  }

  /** Resting rows hold one permission to launch that no launch has used yet. */
  function Resting(command: TaskCommand): nat {
    if command.state.Queued? || command.state.Canceled? then 1 else 0
  }

  predicate Conserved(b: Bridge, id: string)
    requires id in b.rows
  {
    && b.marks[Launched(id)] + Resting(b.rows[id]) ==
       b.marks[Admitted(id)] + b.marks[Retried(id)] + b.marks[Requeued(id)]
    && b.marks[Admitted(id)] <= 1
  }

  predicate Unmarked(b: Bridge, id: string) {
    b.marks[Launched(id)] == b.marks[Admitted(id)] == b.marks[Retried(id)] == b.marks[Requeued(id)] == 0
  }

  predicate RowOk(b: Bridge, id: string) {
    if id in b.rows then b.rows[id].id == id && ReferencesSession(b.rows[id], b.sessions) && Conserved(b, id)
    else Unmarked(b, id)
  }

  /** A suspended dispatch owns its row, and a turn owns its session's lease. */
  predicate FlightOk(b: Bridge, id: string) {
    && (id in b.active <==> id in b.flights)
    && (id in b.flights ==>
          var flight := b.flights[id];
          && id in b.rows && SameCommand(flight.current, b.rows[id])
          && (!flight.phase.Settled? ==> b.rows[id].state.Running? && flight.current.state.Running?)
          && (flight.phase.InTurn? && flight.phase.lease.Some? ==>
                flight.phase.lease.value in b.leases && b.leases[flight.phase.lease.value] == id))
  }

  predicate LeaseOk(b: Bridge, session: string) {
    session in b.leases ==>
      b.leases[session] in b.flights && b.flights[b.leases[session]].phase == InTurn(Some(session))
  }

  ghost predicate Valid(b: Bridge) {
    && TableOk(b)
    && (forall id :: RowOk(b, id))
    && (forall id :: FlightOk(b, id))
    && (forall session :: LeaseOk(b, session))
  }

  /** Rows are never deleted and what they ask for never changes; canceled is
      final, and nothing more is launched for a canceled row. */
  predicate RowKept(b: Bridge, c: Bridge, id: string) {
    id in b.rows ==>
      && id in c.rows && SameCommand(b.rows[id], c.rows[id])
      && (b.rows[id].state.Canceled? ==> c.rows[id].state.Canceled? && c.marks[Launched(id)] == b.marks[Launched(id)])
  }

  ghost predicate Kept(b: Bridge, c: Bridge) {
    forall id :: RowKept(b, c, id)
  }

  // ------------------------------------------------------- preservation lemmas

  /** `c` differs from `b` only in what concerns the existing row `id`. */
  ghost predicate OnlyTouches(b: Bridge, c: Bridge, id: string) {
    && id in b.rows && id in c.rows && c.order == b.order && c.sessions == b.sessions
    && c.rows == b.rows[id := c.rows[id]]
    && (forall x :: x != id ==> (x in c.active <==> x in b.active))
    && (forall x ::
          x != id ==> (x in c.flights <==> x in b.flights) && (x in b.flights ==> c.flights[x] == b.flights[x]))
    && (forall m: Mark :: m.id != id ==> c.marks[m] == b.marks[m])
    && (forall s :: s in b.leases && b.leases[s] != id ==> s in c.leases && c.leases[s] == b.leases[s])
    && (forall s :: s in c.leases && c.leases[s] != id ==> s in b.leases && c.leases[s] == b.leases[s])
  }

  lemma TouchedKeepsValid(b: Bridge, c: Bridge, id: string)
    requires Valid(b) && OnlyTouches(b, c, id)
    requires RowOk(c, id) && FlightOk(c, id) && RowKept(b, c, id)
    requires forall s :: s in c.leases && c.leases[s] == id ==> LeaseOk(c, s)
    ensures Valid(c) && Kept(b, c)
  {
    assert RowOk(b, id);
    forall x ensures RowOk(c, x) && RowKept(b, c, x) {
      assert RowOk(b, x);
    }
    forall x ensures FlightOk(c, x) {
      assert FlightOk(b, x);
    }
    forall s ensures LeaseOk(c, s) {
      assert LeaseOk(b, s);
    }
  }

  lemma {:induction false} QueuedInIsQueued(rows: map<string, TaskCommand>, ids: seq<string>)
    requires forall i, j :: 0 <= i < j < |ids| ==> ids[i] != ids[j]
    ensures var q := QueuedIn(rows, ids);
            && (forall i, j :: 0 <= i < j < |q| ==> q[i] != q[j])
            && (forall id :: id in q <==> id in ids && id in rows && rows[id].state.Queued?)
  {
    if ids != [] {
      QueuedInIsQueued(rows, ids[1..]);
      assert forall id :: id in ids <==> id == ids[0] || id in ids[1..];
      var q := QueuedIn(rows, ids[1..]);
      assert forall id :: id in [ids[0]] + q <==> id == ids[0] || id in q;
    }
  }

  lemma LaunchKeepsValid(b: Bridge, id: string)
    requires Valid(b) && id in b.rows && b.rows[id].state.Queued? && id !in b.active
    ensures Valid(Launch(b, id)) && Kept(b, Launch(b, id))
  {
    assert RowOk(b, id) && FlightOk(b, id);
    forall s | s in b.leases ensures b.leases[s] != id {
      assert LeaseOk(b, s);
    }
    TouchedKeepsValid(b, Launch(b, id), id);
  }

  lemma KeptTransitive(b: Bridge, c: Bridge, d: Bridge)
    requires Kept(b, c) && Kept(c, d)
    ensures Kept(b, d)
  {
    forall id ensures RowKept(b, d, id) {
      assert RowKept(b, c, id) && RowKept(c, d, id);
    }
  }

  /** A pass over distinct queued rows launches only those rows. */
  lemma {:induction false} DispatchAllKeepsValid(b: Bridge, ids: seq<string>)
    requires Valid(b)
    requires forall i, j :: 0 <= i < j < |ids| ==> ids[i] != ids[j]
    requires forall id :: id in ids ==> id in b.rows && b.rows[id].state.Queued?
    ensures var c := DispatchAll(b, ids);
            Valid(c) && Kept(b, c) && (forall id :: id !in ids ==> c.marks[Launched(id)] == b.marks[Launched(id)])
    decreases |ids|
  {
    if ids != [] {
      var id := ids[0];
      var next := if Dispatchable(b, id) then Launch(b, id) else b;
      if Dispatchable(b, id) {
        LaunchKeepsValid(b, id);
      }
      assert forall x :: x in ids[1..] ==> x in ids && x != id;
      DispatchAllKeepsValid(next, ids[1..]);
      KeptTransitive(b, next, DispatchAll(b, ids));
    }
  }

  lemma DispatchQueuedKeepsValid(b: Bridge)
    requires Valid(b)
    ensures var c := DispatchPass(b);
            && Valid(c) && Kept(b, c)
            && (forall id ::
                  id !in b.rows || !b.rows[id].state.Queued? ==> c.marks[Launched(id)] == b.marks[Launched(id)])
  {
    QueuedInIsQueued(b.rows, b.order);
    DispatchAllKeepsValid(b, QueuedIn(b.rows, b.order));
  }

  lemma InsertKeepsValid(b: Bridge, command: TaskCommand)
    requires Valid(b) && (command.state.Queued? || command.state.Failed?)
    ensures var c := Insert(b, command).bridge; Valid(c) && Kept(b, c)
  {
    var c := Insert(b, command).bridge;
    if c != b {
      var id := command.id;
      assert RowOk(b, id) && FlightOk(b, id);
      forall x ensures RowOk(c, x) && FlightOk(c, x) && RowKept(b, c, x) {
        assert RowOk(b, x) && FlightOk(b, x);
      }
      forall s ensures LeaseOk(c, s) {
        assert LeaseOk(b, s);
      }
      forall x ensures x in c.order <==> x in c.rows {
        assert x in c.order <==> x in b.order || x == id;
      }
      forall x, y | x in c.rows && y in c.rows && c.rows[x].key == c.rows[y].key ensures x == y {
        assert x in b.rows ==> x in b.order;
        assert y in b.rows ==> y in b.order;
      }
    }
  }

  lemma SubmitKeepsValid(b: Bridge, command: TaskCommand)
    requires Valid(b) && (command.state.Queued? || command.state.Failed?)
    ensures var c := Submission(b, command).bridge; Valid(c) && Kept(b, c)
  {
    var inserted := Insert(b, command).bridge;
    InsertKeepsValid(b, command);
    DispatchQueuedKeepsValid(inserted);
    KeptTransitive(b, inserted, DispatchPass(inserted));
  }

  /** A write to one row that no unsettled dispatch owns. */
  lemma RestingWriteKeepsValid(b: Bridge, c: Bridge, id: string)
    requires Valid(b) && OnlyTouches(b, c, id)
    requires !b.rows[id].state.Running? && SameCommand(b.rows[id], c.rows[id]) &&
             c.rows[id].sessionId == b.rows[id].sessionId
    requires c.active == b.active && c.flights == b.flights && c.leases == b.leases
    requires b.rows[id].state.Canceled? ==> c.rows[id].state.Canceled?
    requires c.marks[Launched(id)] == b.marks[Launched(id)] && Conserved(c, id)
    ensures Valid(c) && Kept(b, c)
  {
    assert RowOk(b, id) && FlightOk(b, id);
    forall s | s in c.leases && c.leases[s] == id ensures LeaseOk(c, s) {
      assert LeaseOk(b, s);
    }
    TouchedKeepsValid(b, c, id);
  }

  lemma RequeueKeepsValid(b: Bridge, id: string)
    requires Valid(b) && id in b.rows && b.rows[id].state.Failed?
    ensures Valid(QueuedAgain(b, id)) && Kept(b, QueuedAgain(b, id))
  {
    assert RowOk(b, id);
    RestingWriteKeepsValid(b, QueuedAgain(b, id), id);
  }

  lemma RetryKeepsValid(b: Bridge, id: string)
    requires Valid(b)
    ensures var c := RetryCommand(b, id).bridge; Valid(c) && Kept(b, c)
  {
    if id in b.rows && b.rows[id].state.Failed? {
      assert RowOk(b, id);
      var invalid := RetryInvalid(b, b.rows[id]);
      if invalid.Some? {
        RestingWriteKeepsValid(b, b.(rows := b.rows[id := b.rows[id].(error := invalid)]), id);
      } else {
        RequeueKeepsValid(b, id);
        DispatchQueuedKeepsValid(QueuedAgain(b, id));
        KeptTransitive(b, QueuedAgain(b, id), RetryCommand(b, id).bridge);
      }
    }
  }

  lemma CancelKeepsValid(b: Bridge, target: Option<string>, key: string)
    requires Valid(b)
    ensures var c := CancelCommand(b, target, key).0; Valid(c) && Kept(b, c)
  {
    var c, found := CancelCommand(b, target, key).0, CancelTarget(b, target, key);
    if found.Some? && found.value.state.Queued? {
      var id :| id in b.rows && b.rows[id] == found.value;
      assert RowOk(b, id);
      RestingWriteKeepsValid(b, c, id);
    }
  }

  /** The final write touches one row and leaves it completed, failed or as it was. */
  predicate IsFinalWrite(b: Bridge, c: Bridge, id: string) {
    && id in b.rows && id in c.rows && c == b.(rows := b.rows[id := c.rows[id]])
    && SameCommand(b.rows[id], c.rows[id]) && ReferencesSession(c.rows[id], b.sessions)
    && Resting(c.rows[id]) == 0 && !c.rows[id].state.Canceled?
  }

  lemma UpdateIsLocal(b: Bridge, current: TaskCommand, outcome: TurnOutcome)
    requires current.id in b.rows && SameCommand(current, b.rows[current.id])
    ensures var written := Update(b, FinalRow(current, outcome));
            written.Some? ==> IsFinalWrite(b, written.value, current.id)
  {
  }

  lemma FinalWriteIsLocal(b: Bridge, current: TaskCommand, outcome: TurnOutcome)
    requires current.id in b.rows && SameCommand(current, b.rows[current.id]) && b.rows[current.id].state.Running?
    requires ReferencesSession(b.rows[current.id], b.sessions)
    ensures IsFinalWrite(b, WriteFinal(b, current, outcome), current.id)
  {
    UpdateIsLocal(b, current, outcome);
    UpdateIsLocal(b, current, Threw("foreign key violation"));
    assert b == b.(rows := b.rows[current.id := b.rows[current.id]]);
  }

  lemma SettleKeepsValid(b: Bridge, id: string, outcome: TurnOutcome)
    requires Valid(b) && id in b.flights && !b.flights[id].phase.Settled?
    ensures var c := Settlement(b, id, outcome); Valid(c) && Kept(b, c)
  {
    var c := Settlement(b, id, outcome);
    assert RowOk(b, id) && FlightOk(b, id);
    FinalWriteIsLocal(b, b.flights[id].current, outcome);
    forall s | s in b.leases && b.leases[s] == id ensures s !in c.leases {
      assert LeaseOk(b, s);
    }
    TouchedKeepsValid(b, c, id);
  }

  lemma TurnStartKeepsValid(b: Bridge, c: Bridge, id: string, session: Option<string>)
    requires Valid(b) && id in b.flights && b.flights[id].phase.AwaitingMaterials? &&
             (session.Some? ==> session.value !in b.leases)
    requires c == b.(leases := if session.Some? then b.leases[session.value := id] else b.leases,
                     flights := b.flights[id := b.flights[id].(phase := InTurn(session))])
    ensures Valid(c) && Kept(b, c)
  {
    assert RowOk(b, id) && FlightOk(b, id);
    forall s | s in b.leases ensures b.leases[s] != id {
      assert LeaseOk(b, s);
    }
    TouchedKeepsValid(b, c, id);
  }

  lemma MaterialsKeepsValid(b: Bridge, id: string, sizes: seq<Option<nat>>)
    requires Valid(b)
    ensures var c := MaterialsReady(b, id, sizes); Valid(c) && Kept(b, c)
  {
    var c := MaterialsReady(b, id, sizes);
    if id in b.flights && b.flights[id].phase.AwaitingMaterials? {
      assert RowOk(b, id) && FlightOk(b, id);
      var flight, refused := b.flights[id], MaterialsRefused(sizes);
      if refused.Some? {
        assert c == Settlement(b, id, Threw(refused.value));
        SettleKeepsValid(b, id, Threw(refused.value));
      } else if flight.current.kind.FollowUpTask? && SendRefused(b, flight.current.sessionId).Some? {
        assert c == Settlement(b, id, Returned(false, None, SendRefused(b, flight.current.sessionId).value));
        SettleKeepsValid(b, id, Returned(false, None, SendRefused(b, flight.current.sessionId).value));
      } else {
        TurnStartKeepsValid(b, c, id, if flight.current.kind.CreateTask? then None else flight.current.sessionId);
      }
    }
  }

  lemma SessionAnnouncedKeepsValid(b: Bridge, id: string, sessionId: string)
    requires Valid(b)
    ensures var c := SessionAnnounced(b, id, sessionId); Valid(c) && Kept(b, c)
  {
    var c := SessionAnnounced(b, id, sessionId);
    if c != b {
      assert RowOk(b, id) && FlightOk(b, id);
      forall s | s in b.leases ensures b.leases[s] != id {
        assert LeaseOk(b, s);
      }
      TouchedKeepsValid(b, c, id);
    }
  }

  lemma ReleasedKeepsValid(b: Bridge, id: string)
    requires Valid(b)
    ensures var c := Released(b, id); Valid(c) && Kept(b, c)
  {
    var c := Released(b, id);
    if c != b {
      assert RowOk(b, id) && FlightOk(b, id);
      forall s | s in b.leases ensures b.leases[s] != id {
        assert LeaseOk(b, s);
      }
      TouchedKeepsValid(b, c, id);
    }
  }

  lemma {:induction false} RequeueAllKeepsValid(b: Bridge, ids: seq<string>)
    requires Valid(b) && b.flights == map[] && b.leases == map[]
    ensures var c := RequeueAll(b, ids); Valid(c) && Kept(b, c)
    decreases |ids|
  {
    if ids != [] {
      var id := ids[0];
      var next := if Interrupted(b, id) then Requeue(b, id) else b;
      if Interrupted(b, id) {
        assert RowOk(b, id) && FlightOk(b, id);
        TouchedKeepsValid(b, next, id);
      }
      RequeueAllKeepsValid(next, ids[1..]);
      KeptTransitive(b, next, RequeueAll(b, ids));
    }
  }

  lemma RestartKeepsValid(b: Bridge)
    requires Valid(b)
    ensures Valid(Restart(b)) && Kept(b, Restart(b))
  {
    var stopped := b.(active := {}, flights := map[], leases := map[]);
    forall id ensures RowOk(stopped, id) && FlightOk(stopped, id) && RowKept(b, stopped, id) {
      assert RowOk(b, id);
    }
    RequeueAllKeepsValid(stopped, b.order);
    KeptTransitive(b, stopped, Restart(b));
  }

  lemma EnvironmentKeepsValid(b: Bridge, e: Event)
    requires Valid(b) && (e.OnSessions? || e.OnWorkspaces?)
    ensures Valid(Step(b, e)) && Kept(b, Step(b, e))
  {
    var c := Step(b, e);
    forall id ensures RowOk(c, id) && FlightOk(c, id) && RowKept(b, c, id) {
      assert RowOk(b, id) && FlightOk(b, id);
    }
    forall s ensures LeaseOk(c, s) {
      assert LeaseOk(b, s);
    }
  }

  lemma StepKeepsValid(b: Bridge, e: Event)
    requires Valid(b)
    ensures Valid(Step(b, e)) && Kept(b, Step(b, e))
  {
    match e
    case Create(newId, key, workspaceId, text, materialIds) =>
      SubmitKeepsValid(b, CreateCommand(b, newId, key, workspaceId, text, materialIds));
    case FollowUp(newId, key, sessionId, text, materialIds) =>
      SubmitKeepsValid(b, FollowUpCommand(b, newId, key, sessionId, text, materialIds));
    case Retry(id) => RetryKeepsValid(b, id);
    case Cancel(target, key) => CancelKeepsValid(b, target, key);
    case Tick => DispatchQueuedKeepsValid(b);
    case OnMaterials(id, sizes) => MaterialsKeepsValid(b, id, sizes);
    case OnSession(id, sessionId) => SessionAnnouncedKeepsValid(b, id, sessionId);
    case OnTurnEnded(id, outcome) =>
      if id in b.flights && b.flights[id].phase.InTurn? {
        SettleKeepsValid(b, id, outcome);
      }
    case OnReleased(id) => ReleasedKeepsValid(b, id);
    case BridgeRestart => RestartKeepsValid(b);
    case OnSessions(_) => EnvironmentKeepsValid(b, e);
    case OnWorkspaces(_) => EnvironmentKeepsValid(b, e);
  }

  lemma {:induction false} RunKeepsValid(b: Bridge, events: seq<Event>)
    requires Valid(b)
    ensures Valid(Run(b, events)) && Kept(b, Run(b, events))
    decreases |events|
  {
    if events != [] {
      StepKeepsValid(b, events[0]);
      RunKeepsValid(Step(b, events[0]), events[1..]);
      KeptTransitive(b, Step(b, events[0]), Run(b, events));
    }
  }

  lemma {:induction false} DispatchAllKeepsIds(b: Bridge, ids: seq<string>)
    ensures DispatchAll(b, ids).rows.Keys == b.rows.Keys
    decreases |ids|
  {
    if ids != [] {
      DispatchAllKeepsIds(if Dispatchable(b, ids[0]) then Launch(b, ids[0]) else b, ids[1..]);
    }
  }

  lemma {:induction false} RequeueAllKeepsIds(b: Bridge, ids: seq<string>)
    ensures RequeueAll(b, ids).rows.Keys == b.rows.Keys
    decreases |ids|
  {
    if ids != [] {
      RequeueAllKeepsIds(if Interrupted(b, ids[0]) then Requeue(b, ids[0]) else b, ids[1..]);
    }
  }

  lemma SubmissionRows(b: Bridge, command: TaskCommand)
    requires Valid(b) && (command.state.Queued? || command.state.Failed?)
    ensures var c := Submission(b, command).bridge;
            forall id :: id in c.rows ==> id in b.rows || SameCommand(c.rows[id], command)
  {
    var inserted := Insert(b, command).bridge;
    InsertKeepsValid(b, command);
    DispatchQueuedKeepsValid(inserted);
    DispatchAllKeepsIds(inserted, QueuedIn(inserted.rows, inserted.order));
    assert RowKept(inserted, DispatchPass(inserted), command.id);
  }

  lemma RetryKeepsIds(b: Bridge, x: string)
    ensures RetryCommand(b, x).bridge.rows.Keys == b.rows.Keys
  {
    if x in b.rows {
      var c := QueuedAgain(b, x);
      DispatchAllKeepsIds(c, QueuedIn(c.rows, c.order));
    }
  }

  lemma CancelKeepsIds(b: Bridge, target: Option<string>, key: string)
    requires Valid(b)
    ensures CancelCommand(b, target, key).0.rows.Keys == b.rows.Keys
  {
    var found := CancelTarget(b, target, key);
    if found.Some? {
      var x :| x in b.rows && b.rows[x] == found.value;
      assert RowOk(b, x);
    }
  }

  lemma SettlementKeepsIds(b: Bridge, id: string, outcome: TurnOutcome)
    requires Valid(b) && id in b.flights && !b.flights[id].phase.Settled?
    ensures Settlement(b, id, outcome).rows.Keys == b.rows.Keys
  {
    assert FlightOk(b, id);
    assert WriteFinal(b, b.flights[id].current, outcome).rows.Keys == b.rows.Keys;
  }

  lemma MaterialsKeepIds(b: Bridge, id: string, sizes: seq<Option<nat>>)
    requires Valid(b)
    ensures MaterialsReady(b, id, sizes).rows.Keys == b.rows.Keys
  {
    if id in b.flights && b.flights[id].phase.AwaitingMaterials? {
      if MaterialsRefused(sizes).Some? {
        SettlementKeepsIds(b, id, Threw(MaterialsRefused(sizes).value));
      } else if b.flights[id].current.kind.FollowUpTask? {
        var refused := SendRefused(b, b.flights[id].current.sessionId);
        if refused.Some? {
          SettlementKeepsIds(b, id, Returned(false, None, refused.value));
        }
      }
    }
  }

  lemma ContinuationKeepsIds(b: Bridge, e: Event)
    requires Valid(b) && (e.OnMaterials? || e.OnSession? || e.OnTurnEnded? || e.OnReleased?)
    ensures Step(b, e).rows.Keys == b.rows.Keys
  {
    if e.OnMaterials? {
      MaterialsKeepIds(b, e.id, e.sizes);
    } else if e.OnTurnEnded? {
      if e.id in b.flights && b.flights[e.id].phase.InTurn? {
        SettlementKeepsIds(b, e.id, e.outcome);
      }
    } else {
      assert FlightOk(b, e.id);
    }
  }

  /** A row comes into being only by a create or follow-up, with its key, kind
      and trimmed text. */
  lemma NewRowsAreSubmitted(b: Bridge, e: Event, id: string)
    requires Valid(b) && id in Step(b, e).rows && id !in b.rows
    ensures e.Create? || e.FollowUp?
    ensures var row := Step(b, e).rows[id];
            && row.key == e.key && row.text == Trim(e.text) && row.materialIds == e.materialIds
            && row.kind == if e.Create? then CreateTask else FollowUpTask
  {
    match e
    case Create(newId, key, workspaceId, text, materialIds) =>
      SubmissionRows(b, CreateCommand(b, newId, key, workspaceId, text, materialIds));
    case FollowUp(newId, key, sessionId, text, materialIds) =>
      SubmissionRows(b, FollowUpCommand(b, newId, key, sessionId, text, materialIds));
    case BridgeRestart => RequeueAllKeepsIds(b.(active := {}, flights := map[], leases := map[]), b.order);
    case Tick => DispatchAllKeepsIds(b, QueuedIn(b.rows, b.order));
    case Retry(x) => RetryKeepsIds(b, x);
    case Cancel(target, key) => CancelKeepsIds(b, target, key);
    case OnSessions(_) =>
    case OnWorkspaces(_) =>
    case _ => ContinuationKeepsIds(b, e);
  }

  lemma FindByKeyFinds(b: Bridge, id: string)
    requires Valid(b) && id in b.rows
    ensures FindByKey(b.rows, b.order, b.rows[id].key) == Some(b.rows[id])
  {
    assert id in b.order;
  }

  /** What a create or follow-up asks the store to insert. */
  function SubmittedCommand(b: Bridge, e: Event): TaskCommand
    requires e.Create? || e.FollowUp?
  {
    if e.Create? then CreateCommand(b, e.newId, e.key, e.workspaceId, e.text, e.materialIds)
    else FollowUpCommand(b, e.newId, e.key, e.sessionId, e.text, e.materialIds)
  }

  ghost predicate KeyIsNew(b: Bridge, key: string) {
    forall id :: id in b.rows ==> b.rows[id].key != key
  }

  lemma InsertStoresExactlyWhen(b: Bridge, command: TaskCommand)
    requires Valid(b)
    ensures var stores := command.id !in b.rows && KeyIsNew(b, command.key) && ReferencesSession(command, b.sessions);
            && Insert(b, command).bridge.rows == (if stores then b.rows[command.id := command] else b.rows)
            && (Insert(b, command).reply.None? <==> !stores && KeyIsNew(b, command.key))
  {
    if !KeyIsNew(b, command.key) {
      var id :| id in b.rows && b.rows[id].key == command.key;
      FindByKeyFinds(b, id);
    } else {
      assert FindByKey(b.rows, b.order, command.key).None?;
    }
  }

  lemma PassKeepsKeys(b: Bridge)
    requires Valid(b)
    ensures DispatchPass(b).rows.Keys == b.rows.Keys
    ensures forall id :: id in b.rows ==> DispatchPass(b).rows[id].key == b.rows[id].key
  {
    DispatchQueuedKeepsValid(b);
    DispatchAllKeepsIds(b, QueuedIn(b.rows, b.order));
    forall id | id in b.rows ensures DispatchPass(b).rows[id].key == b.rows[id].key {
      assert RowKept(b, DispatchPass(b), id);
    }
  }

  predicate IsStorable(b: Bridge, command: TaskCommand) {
    command.id !in b.rows && FindByKey(b.rows, b.order, command.key).None? && ReferencesSession(command, b.sessions)
  }

  lemma SubmissionStores(b: Bridge, command: TaskCommand)
    requires Valid(b) && (command.state.Queued? || command.state.Failed?)
    ensures FindByKey(b.rows, b.order, command.key).None? <==> KeyIsNew(b, command.key)
    ensures var submitted := Submission(b, command);
            && submitted.bridge.rows.Keys == b.rows.Keys + (if IsStorable(b, command) then {command.id} else {})
            && (IsStorable(b, command) ==> submitted.bridge.rows[command.id].key == command.key)
            && (submitted.reply.None? <==> !IsStorable(b, command) && FindByKey(b.rows, b.order, command.key).None?)
  {
    InsertStoresExactlyWhen(b, command);
    InsertedPassKeepsKeys(b, command);
  }

  lemma InsertedPassKeepsKeys(b: Bridge, command: TaskCommand)
    requires Valid(b) && (command.state.Queued? || command.state.Failed?)
    ensures var inserted := Insert(b, command).bridge;
            && DispatchPass(inserted).rows.Keys == inserted.rows.Keys
            && forall id :: id in inserted.rows ==> DispatchPass(inserted).rows[id].key == inserted.rows[id].key
  {
    InsertKeepsValid(b, command);
    PassKeepsKeys(Insert(b, command).bridge);
  }

  /** Its id and its key are new, and the session it names is known. */
  ghost predicate Stores(b: Bridge, e: Event)
    requires e.Create? || e.FollowUp?
  {
    e.newId !in b.rows && KeyIsNew(b, e.key) && (e.FollowUp? ==> e.sessionId in b.sessions)
  }

  /** A create or follow-up adds its row exactly when `Stores` holds, and throws
      exactly when that fails although no row has its key. */
  lemma SubmissionStoresExactlyWhen(b: Bridge, e: Event)
    requires Valid(b) && (e.Create? || e.FollowUp?)
    ensures var c := Step(b, e);
            && c.rows.Keys == b.rows.Keys + (if Stores(b, e) then {e.newId} else {})
            && (Stores(b, e) ==> c.rows[e.newId].key == e.key)
    ensures Submission(b, SubmittedCommand(b, e)).reply.None? <==> !Stores(b, e) && KeyIsNew(b, e.key)
  {
    SubmissionStores(b, SubmittedCommand(b, e));
  }

  // --------------------------------------------------------------- main results

  lemma EmptyIsValid()
    ensures Valid(EMPTY)
  {
    forall id ensures RowOk(EMPTY, id) && FlightOk(EMPTY, id) {}
  }

  /** Execution conservation, over every run: each launch of a command is paid
      for by exactly one admission, accepted retry or restart requeue, and a
      queued or canceled command holds exactly one unused permission. */
  lemma ExecutionsAreConserved(events: seq<Event>, id: string)
    ensures var b := Run(EMPTY, events);
            id in b.rows ==>
              && b.marks[Launched(id)] + (if b.rows[id].state.Queued? || b.rows[id].state.Canceled? then 1 else 0)
                 == b.marks[Admitted(id)] + b.marks[Retried(id)] + b.marks[Requeued(id)]
              && b.marks[Launched(id)] <= 1 + b.marks[Retried(id)] + b.marks[Requeued(id)]
  {
    EmptyIsValid();
    RunKeepsValid(EMPTY, events);
    assert RowOk(Run(EMPTY, events), id);
  }

  /** A canceled command stays canceled and is never launched again. */
  lemma CanceledNeverRunsAgain(b: Bridge, events: seq<Event>, id: string)
    requires Valid(b) && id in b.rows && b.rows[id].state.Canceled?
    ensures var c := Run(b, events);
            id in c.rows && c.rows[id].state.Canceled? && c.marks[Launched(id)] == b.marks[Launched(id)]
  {
    RunKeepsValid(b, events);
    assert RowKept(b, Run(b, events), id);
  }

  /** Over every run at most one `sendMessage` turn is in flight per session. */
  lemma OneTurnPerSession(events: seq<Event>, x: string, y: string)
    ensures var b := Run(EMPTY, events);
            (x in b.flights && y in b.flights && b.flights[x].phase.InTurn? && b.flights[x].phase.lease.Some?
             && b.flights[x].phase == b.flights[y].phase) ==> x == y
  {
    EmptyIsValid();
    RunKeepsValid(EMPTY, events);
    assert FlightOk(Run(EMPTY, events), x) && FlightOk(Run(EMPTY, events), y);
  }

  /** Delivering a known key again does no more than a timer tick would, and
      answers with the row that was stored first. */
  lemma RedeliveryIsATick(b: Bridge, e: Event, id: string)
    requires Valid(b) && id in b.rows && (e.Create? || e.FollowUp?) && e.key == b.rows[id].key
    ensures Step(b, e) == Step(b, Tick)
    ensures Insert(b, SubmittedCommand(b, e)) == Outcome(b, Some(b.rows[id]))
    ensures forall x ::
              x !in b.rows || !b.rows[x].state.Queued? ==> Step(b, e).marks[Launched(x)] == b.marks[Launched(x)]
  {
    FindByKeyFinds(b, id);
    DispatchQueuedKeepsValid(b);
  }

  predicate LaunchedOnce(b: Bridge, c: Bridge, id: string) {
    id in c.rows && c.rows[id].state.Running? && c.marks[Launched(id)] == b.marks[Launched(id)] + 1
  }

  predicate Untouched(b: Bridge, c: Bridge, id: string) {
    id in b.rows && id in c.rows && c.rows[id] == b.rows[id] && c.marks[Launched(id)] == b.marks[Launched(id)]
    && (id in c.active <==> id in b.active) && c.sessions == b.sessions
  }

  lemma {:induction false} DispatchAllEffect(b: Bridge, ids: seq<string>, id: string)
    requires id in b.rows && forall i, j :: 0 <= i < j < |ids| ==> ids[i] != ids[j]
    ensures var c := DispatchAll(b, ids);
            if id in ids && Dispatchable(b, id) then LaunchedOnce(b, c, id) else Untouched(b, c, id)
    decreases |ids|
  {
    if ids != [] {
      var next := if Dispatchable(b, ids[0]) then Launch(b, ids[0]) else b;
      assert id in ids <==> id == ids[0] || id in ids[1..];
      assert ids[0] !in ids[1..];
      assert id != ids[0] ==> Untouched(b, next, id);
      DispatchAllEffect(next, ids[1..], id);
    }
  }

  /** A dispatch pass launches, once each, exactly the queued rows that are not
      already active and whose session is free; it changes no other row. */
  lemma TickLaunchesExactlyTheDispatchable(b: Bridge, id: string)
    requires Valid(b) && id in b.rows
    ensures var c := Step(b, Tick);
            if b.rows[id].state.Queued? && Dispatchable(b, id) then LaunchedOnce(b, c, id) else Untouched(b, c, id)
  {
    QueuedInIsQueued(b.rows, b.order);
    DispatchAllEffect(b, QueuedIn(b.rows, b.order), id);
  }

  /** A create under a new key, id and trusted workspace runs at once. */
  lemma FreshCreateRuns(b: Bridge, e: Event)
    requires Valid(b) && e.Create? && e.newId !in b.rows && e.workspaceId in b.workspaces
    requires forall id :: id in b.rows ==> b.rows[id].key != e.key
    ensures var c := Step(b, e);
            && e.newId in c.rows && c.rows[e.newId].key == e.key && c.rows[e.newId].state.Running?
            && c.marks[Launched(e.newId)] == 1 && c.workspaces == b.workspaces
  {
    var command := CreateCommand(b, e.newId, e.key, e.workspaceId, e.text, e.materialIds);
    var inserted := Insert(b, command).bridge;
    assert RowOk(b, e.newId) && FlightOk(b, e.newId);
    InsertKeepsValid(b, command);
    TickLaunchesExactlyTheDispatchable(inserted, e.newId);
    StepKeepsValid(inserted, Tick);
    assert RowKept(inserted, Step(inserted, Tick), e.newId);
    DispatchAllKeepsWorkspaces(inserted, QueuedIn(inserted.rows, inserted.order));
  }

  lemma {:induction false} DispatchAllKeepsWorkspaces(b: Bridge, ids: seq<string>)
    ensures DispatchAll(b, ids).workspaces == b.workspaces
    decreases |ids|
  {
    if ids != [] {
      DispatchAllKeepsWorkspaces(if Dispatchable(b, ids[0]) then Launch(b, ids[0]) else b, ids[1..]);
    }
  }

  lemma {:induction false} RequeueAllEffect(b: Bridge, ids: seq<string>, id: string)
    requires id in b.rows && forall i, j :: 0 <= i < j < |ids| ==> ids[i] != ids[j]
    ensures var c := RequeueAll(b, ids);
            && id in c.rows && c.active == b.active && c.flights == b.flights && c.leases == b.leases
            && if id in ids && Interrupted(b, id)
               then c.rows[id] == b.rows[id].(state := Queued, error := None) &&
                    c.marks[Requeued(id)] == b.marks[Requeued(id)] + 1
               else c.rows[id] == b.rows[id] && c.marks[Requeued(id)] == b.marks[Requeued(id)]
    decreases |ids|
  {
    if ids != [] {
      var next := if Interrupted(b, ids[0]) then Requeue(b, ids[0]) else b;
      assert forall x :: x in ids[1..] ==> x in ids && x != ids[0];
      RequeueAllEffect(next, ids[1..], id);
    }
  }

  /** A restart requeues exactly the interrupted rows and forgets every dispatch. */
  lemma RestartRequeuesExactlyTheInterrupted(b: Bridge, id: string)
    requires Valid(b) && id in b.rows
    ensures var c := Step(b, BridgeRestart);
            && id in c.rows && c.active == {} && c.flights == map[] && c.leases == map[]
            && if b.rows[id].state.Running? || b.rows[id].state.Dispatching?
               then c.rows[id] == b.rows[id].(state := Queued, error := None) &&
                    c.marks[Requeued(id)] == b.marks[Requeued(id)] + 1
               else c.rows[id] == b.rows[id] && c.marks[Requeued(id)] == b.marks[Requeued(id)]
  {
    RequeueAllEffect(b.(active := {}, flights := map[], leases := map[]), b.order, id);
  }

  // ---------------------------------------------------------------- the service

  ghost predicate AllQueued(b: Bridge, ids: seq<string>) {
    forall id :: id in ids ==> id in b.rows && b.rows[id].state.Queued?
  }

  lemma LaunchLeavesRestQueued(b: Bridge, ids: seq<string>)
    requires ids != [] && AllQueued(b, ids) && forall i, j :: 0 <= i < j < |ids| ==> ids[i] != ids[j]
    ensures AllQueued(b, ids[1..]) && AllQueued(Launch(b, ids[0]), ids[1..])
  {
    assert ids[0] !in ids[1..];
    assert forall id :: id in ids[1..] ==> id in ids;
  }

  /** The service and its tables, updated step by step. Each method is tied to
      the step function above; `holders` and `marks` are for the proofs only. */
  class TaskCommandService {
    var order: seq<string>
    var rows: map<string, TaskCommand>
    var active: set<string>
    var flights: map<string, Flight>
    var leases: set<string>
    var sessions: map<string, Session>
    var workspaces: set<string>
    ghost var holders: map<string, string>
    ghost var marks: multiset<Mark>

    ghost predicate Consistent()
      reads this
    {
      leases == holders.Keys
    }

    ghost function State(): Bridge
      reads this
    {
      Bridge(order, rows, active, flights, holders, sessions, workspaces, marks)
    }

    constructor ()
      ensures Consistent() && State() == EMPTY
    {
      order, rows, active, flights, leases := [], map[], {}, map[], {};
      sessions, workspaces, holders, marks := map[], {}, map[], multiset{};
    }

    method InsertTaskCommand(command: TaskCommand) returns (stored: Option<TaskCommand>)
      requires Consistent()
      modifies this
      ensures Consistent() && Outcome(State(), stored) == Insert(old(State()), command)
    {
      stored := FindByKey(rows, order, command.key);
      if command.id in rows || stored.Some? {
        return;
      }
      if !ReferencesSession(command, sessions) {
        return None;
      }
      order := order + [command.id];
      rows := rows[command.id := command];
      if command.state.Queued? {
        marks := marks + multiset{Admitted(command.id)};
      }
      stored := Some(command);
    }

    method UpdateTaskCommand(command: TaskCommand) returns (written: bool)
      requires Consistent()
      modifies this`rows
      ensures Consistent()
      ensures written <==> Update(old(State()), command).Some?
      ensures State() == if written then Update(old(State()), command).value else old(State())
    {
      if command.id !in rows {
        return true;
      }
      if !ReferencesSession(command, sessions) {
        return false;
      }
      rows := rows[command.id := command.(key := rows[command.id].key, kind := rows[command.id].kind)];
      written := true;
    }

    /** The synchronous prefix: dispatching, then running, then the wait. */
    method Dispatch(id: string)
      requires Consistent() && id in rows && rows[id].id == id && ReferencesSession(rows[id], sessions)
      modifies this
      ensures Consistent() && State() == Launch(old(State()), id)
    {
      active := active + {id};
      marks := marks + multiset{Launched(id)};
      var written := UpdateTaskCommand(rows[id].(state := Dispatching, error := None));
      written := UpdateTaskCommand(rows[id].(state := Running));
      flights := flights[id := Flight(rows[id], AwaitingMaterials)];
    }

    method DispatchQueued()
      requires Consistent() && Valid(State())
      modifies this
      ensures Consistent() && State() == DispatchPass(old(State()))
    {
      var queued := QueuedIn(rows, order);
      QueuedInIsQueued(rows, order);
      var i := 0;
      while i < |queued|
        invariant 0 <= i <= |queued|
        invariant Consistent() && Valid(State()) && AllQueued(State(), queued[i..])
        invariant DispatchAll(State(), queued[i..]) == DispatchPass(old(State()))
      {
        var id := queued[i];
        ghost var before := State();
        assert queued[i..][1..] == queued[i + 1..] && id in queued[i..] && RowOk(before, id);
        LaunchLeavesRestQueued(before, queued[i..]);
        if !(id in active || SessionBusyNow(rows[id])) {
          LaunchKeepsValid(before, id);
          Dispatch(id);
        }
        i := i + 1;
      }
    }

    predicate SessionBusyNow(command: TaskCommand)
      reads this
      ensures SessionBusyNow(command) == SessionBusy(State(), command)
    {
      && command.kind.FollowUpTask? && command.sessionId.Some? && command.sessionId.value in sessions
      && (sessions[command.sessionId.value].active || sessions[command.sessionId.value].working)
    }

    method Submit(command: TaskCommand) returns (stored: Option<TaskCommand>)
      requires Consistent() && Valid(State()) && (command.state.Queued? || command.state.Failed?)
      modifies this
      ensures Consistent() && Outcome(State(), stored) == Submission(old(State()), command)
    {
      InsertKeepsValid(State(), command);
      stored := InsertTaskCommand(command);
      if stored.Some? {
        DispatchQueued();
      }
    }

    method Create(newId: string, device: string, idempotencyKey: string, workspaceId: string, text: string,
                  materialIds: seq<string>)
      returns (stored: Option<TaskCommand>)
      requires Consistent() && Valid(State())
      modifies this
      ensures Consistent()
      ensures var e := Event.Create(newId, StorageKey(device, idempotencyKey), workspaceId, text, materialIds);
              State() == Step(old(State()), e) &&
              stored == Submission(old(State()), SubmittedCommand(old(State()), e)).reply
    {
      var trusted := workspaceId in workspaces;
      stored := Submit(TaskCommand(newId, StorageKey(device, idempotencyKey), CreateTask, None, Some(workspaceId),
                                   Trim(text), materialIds, if trusted then Queued else Failed,
                                   if trusted then None else Some(UNTRUSTED_WORKSPACE)));
    }

    method FollowUp(newId: string, device: string, idempotencyKey: string, sessionId: string, text: string,
                    materialIds: seq<string>)
      returns (stored: Option<TaskCommand>)
      requires Consistent() && Valid(State())
      modifies this
      ensures Consistent()
      ensures var e := Event.FollowUp(newId, StorageKey(device, idempotencyKey), sessionId, text, materialIds);
              State() == Step(old(State()), e) &&
              stored == Submission(old(State()), SubmittedCommand(old(State()), e)).reply
    {
      var invalid := FollowUpInvalidReason(Some(sessionId));
      stored := Submit(TaskCommand(newId, StorageKey(device, idempotencyKey), FollowUpTask, Some(sessionId), None,
                                   Trim(text), materialIds, if invalid.Some? then Failed else Queued, invalid));
    }

    method FollowUpInvalidReason(sessionId: Option<string>) returns (reason: Option<string>)
      ensures reason == FollowUpInvalid(State(), sessionId)
    {
      if sessionId.None? || sessionId.value !in sessions {
        return Some(MISSING_SESSION);
      }
      var session := sessions[sessionId.value];
      if session.uncertain || session.pending {
        return Some(UNCERTAIN_SESSION);
      }
      reason := if !session.hasCwd then Some(MISSING_CWD) else None;
    }

    method RetryInvalidReason(command: TaskCommand) returns (reason: Option<string>)
      ensures reason == RetryInvalid(State(), command)
    {
      if command.kind.CreateTask? {
        var trusted := command.workspaceId.Some? && command.workspaceId.value in workspaces;
        return if trusted then None else Some(UNTRUSTED_WORKSPACE);
      }
      reason := FollowUpInvalidReason(command.sessionId);
    }

    method Retry(id: string) returns (reply: Option<TaskCommand>)
      requires Consistent() && Valid(State())
      modifies this
      ensures Consistent() && Outcome(State(), reply) == RetryCommand(old(State()), id)
    {
      if id !in rows {
        return None;
      }
      var command := rows[id];
      if !command.state.Failed? {
        return Some(command);
      }
      assert RowOk(State(), id);
      var invalid := RetryInvalidReason(command);
      if invalid.Some? {
        var written := UpdateTaskCommand(command.(error := invalid));
        return Some(rows[id]);
      }
      RequeueKeepsValid(State(), id);
      var written := UpdateTaskCommand(command.(state := Queued, error := None));
      var next := rows[id];
      marks := marks + multiset{Retried(id)};
      assert State() == QueuedAgain(old(State()), id);
      DispatchQueued();
      reply := Some(next);
    }

    method Cancel(target: Option<string>, key: string) returns (result: CancelResult)
      requires Consistent() && Valid(State())
      modifies this
      ensures Consistent() && (State(), result) == CancelCommand(old(State()), target, key)
    {
      var command: Option<TaskCommand>;
      if target.Some? {
        command := if target.value in rows then Some(rows[target.value]) else None;
      } else {
        command := FindByKey(rows, order, key);
      }
      if command.None? {
        return CancelNotFound;
      }
      ghost var id :| id in rows && rows[id] == command.value;
      assert RowOk(State(), id);
      if command.value.state.Canceled? {
        return CancelOk(command.value);
      }
      if !IsCommandCancelable(command.value.state) {
        return NotCancelable(command.value);
      }
      var written := UpdateTaskCommand(command.value.(state := Canceled));
      result := CancelOk(rows[command.value.id]);
    }

    /** The write after a turn, or the one of the catch branch. */
    method WriteOutcome(current: TaskCommand, outcome: TurnOutcome)
      requires Consistent()
      modifies this`rows
      ensures Consistent() && State() == WriteFinal(old(State()), current, outcome)
    {
      var written := UpdateTaskCommand(FinalRow(current, outcome));
      if !written {
        written := UpdateTaskCommand(FinalRow(current, Threw("foreign key violation")));
      }
    }

    method Release(session: string)
      requires Consistent()
      modifies this`leases, this`holders
      ensures Consistent() && State() == old(State()).(leases := old(holders) - {session})
    {
      leases, holders := leases - {session}, holders - {session};
    }

    method Settle(id: string, outcome: TurnOutcome)
      requires Consistent() && id in flights
      modifies this
      ensures Consistent() && State() == Settlement(old(State()), id, outcome)
    {
      var flight := flights[id];
      if flight.phase.InTurn? && flight.phase.lease.Some? {
        Release(flight.phase.lease.value);
      }
      WriteOutcome(flight.current, outcome);
      flights := flights[id := flight.(phase := Settled)];
    }

    method OnMaterials(id: string, sizes: seq<Option<nat>>)
      requires Consistent()
      modifies this
      ensures Consistent() && State() == MaterialsReady(old(State()), id, sizes)
    {
      if id !in flights || !flights[id].phase.AwaitingMaterials? {
        return;
      }
      var current := flights[id].current;
      var refused := MaterialsRefused(sizes);
      if refused.Some? {
        Settle(id, Threw(refused.value));
      } else if current.kind.CreateTask? {
        flights := flights[id := flights[id].(phase := InTurn(None))];
      } else {
        SendMessage(id, current.sessionId);
      }
    }

    /** `sendMessage` up to the start of its turn. */
    method SendMessage(id: string, sessionId: Option<string>)
      requires Consistent() && id in flights
      modifies this
      ensures Consistent()
      ensures var refused := SendRefused(old(State()), sessionId);
              State() == if refused.Some? then Settlement(old(State()), id, Returned(false, None, refused.value))
                         else old(State()).(
                           leases := old(holders)[sessionId.value := id],
                           flights := old(flights)[id := old(flights)[id].(phase := InTurn(sessionId))])
    {
      if sessionId.None? || sessionId.value !in sessions {
        Settle(id, Returned(false, None, "session not found"));
      } else if sessions[sessionId.value].active {
        Settle(id, Returned(false, None, "session runs in another terminal"));
      } else if sessionId.value in leases {
        Settle(id, Returned(false, None, "session already has a running turn"));
      } else if !sessions[sessionId.value].hasCwd {
        Settle(id, Returned(false, None, MISSING_CWD));
      } else {
        leases := leases + {sessionId.value};
        holders := holders[sessionId.value := id];
        flights := flights[id := flights[id].(phase := InTurn(sessionId))];
      }
    }

    method OnSession(id: string, sessionId: string)
      requires Consistent()
      modifies this
      ensures Consistent() && State() == SessionAnnounced(old(State()), id, sessionId)
    {
      if id !in flights || flights[id].phase != InTurn(None) {
        return;
      }
      var current := flights[id].current.(sessionId := Some(sessionId));
      var written := UpdateTaskCommand(current);
      if written {
        flights := flights[id := flights[id].(current := current)];
      }
    }

    method OnTurnEnded(id: string, outcome: TurnOutcome)
      requires Consistent()
      modifies this
      ensures Consistent() && State() == TurnEnded(old(State()), id, outcome)
    {
      if id in flights && flights[id].phase.InTurn? {
        Settle(id, outcome);
      }
    }

    method OnReleased(id: string)
      requires Consistent()
      modifies this
      ensures Consistent() && State() == Released(old(State()), id)
    {
      if id in flights && flights[id].phase.Settled? {
        flights := flights - {id};
        active := active - {id};
      }
    }

    /** Recovery on start: one pass over the table. */
    method Recover()
      requires Consistent()
      modifies this
      ensures Consistent() && State() == Restart(old(State()))
    {
      active, flights, leases, holders := {}, map[], {}, map[];
      var i := 0;
      while i < |order|
        invariant 0 <= i <= |order| && order == old(order) && Consistent()
        invariant RequeueAll(State(), order[i..]) == Restart(old(State()))
      {
        var id := order[i];
        assert order[i..][1..] == order[i + 1..];
        if id in rows && (rows[id].state.Dispatching? || rows[id].state.Running?) {
          rows := rows[id := rows[id].(state := Queued, error := None)];
          marks := marks + multiset{Requeued(id)};
        }
        i := i + 1;
      }
    }
  }
}
