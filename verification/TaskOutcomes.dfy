/** How commands come out: what a submission, a retry and a cancel decide, how the
    materials and the end of a turn leave the row, and that what ended can go on. */
module TaskOutcomes {
  import opened Keys
  import opened TaskCommands

  // --------------------------------------------------------------------- the end

  predicate Known(b: Bridge, sessionId: Option<string>) {
    sessionId.Some? ==> sessionId.value in b.sessions
  }

  /** The flight is over: its session is free again, and nothing else has moved. */
  predicate Ended(b: Bridge, c: Bridge, id: string)
    requires id in b.flights
  {
    var phase := b.flights[id].phase;
    && c.flights == b.flights[id := Flight(b.flights[id].current, Settled)] && c.active == b.active
    && c.leases == (if phase.InTurn? && phase.lease.Some? then b.leases - {phase.lease.value} else b.leases)
    && c.sessions == b.sessions && c.order == b.order && c.marks == b.marks && id in c.rows
    && c.rows == b.rows[id := c.rows[id]]
  }

  predicate InFlight(b: Bridge, id: string) {
    && id in b.flights && id in b.rows && b.flights[id].current.id == id
    && SameCommand(b.flights[id].current, b.rows[id]) && !b.flights[id].phase.Settled? && b.rows[id].state.Running?
  }

  lemma FlightsAreInFlight(b: Bridge, id: string)
    requires Valid(b) && id in b.flights && !b.flights[id].phase.Settled?
    ensures InFlight(b, id)
  {
    assert FlightOk(b, id) && RowOk(b, id);
  }

  lemma SettlementEnds(b: Bridge, id: string, outcome: TurnOutcome)
    requires InFlight(b, id)
    ensures Ended(b, Settlement(b, id, outcome), id)
  {
  }

  lemma ReturnedRow(b: Bridge, id: string, ok: bool, sessionId: Option<string>, message: string)
    requires InFlight(b, id)
    ensures var c, session := Settlement(b, id, Returned(ok, sessionId, message)),
                              if sessionId.Some? then sessionId else b.flights[id].current.sessionId;
            && id in c.rows && SameCommand(c.rows[id], b.rows[id])
            && (c.rows[id].state.Completed? <==> Known(b, session) && ok)
            && (c.rows[id].state.Running? <==> !Known(b, session) && !Known(b, b.flights[id].current.sessionId))
            && (c.rows[id].state.Completed? || c.rows[id].state.Running? || c.rows[id].state.Failed?)
            && (Known(b, session) ==> c.rows[id].sessionId == session)
            && (Known(b, session) ==> c.rows[id].error == if ok then b.flights[id].current.error else Some(message))
  {
  }

  lemma ThrownRow(b: Bridge, id: string, message: string)
    requires InFlight(b, id)
    ensures var c := Settlement(b, id, Threw(message));
            && id in c.rows && SameCommand(c.rows[id], b.rows[id])
            && if Known(b, b.flights[id].current.sessionId)
               then c.rows[id].state.Failed? && c.rows[id].error == Some(message)
               else c.rows[id] == b.rows[id]
  {
  }

  /** A turn ends as it returned, if the session it names is known: completed
      exactly when it says so, else failed with its message. If that session is not
      known the row fails; if not even the one of its dispatch is, it stays running. */
  lemma TurnEndsAsItReturned(b: Bridge, id: string, ok: bool, sessionId: Option<string>, message: string)
    requires Valid(b) && id in b.flights && b.flights[id].phase.InTurn?
    ensures var c, session := Step(b, OnTurnEnded(id, Returned(ok, sessionId, message))),
                              if sessionId.Some? then sessionId else b.flights[id].current.sessionId;
            && id in c.rows && SameCommand(c.rows[id], b.rows[id]) && Ended(b, c, id)
            && (c.rows[id].state.Completed? <==> Known(b, session) && ok)
            && (c.rows[id].state.Running? <==> !Known(b, session) && !Known(b, b.flights[id].current.sessionId))
            && (c.rows[id].state.Completed? || c.rows[id].state.Running? || c.rows[id].state.Failed?)
            && (Known(b, session) ==> c.rows[id].sessionId == session)
            && (Known(b, session) ==> c.rows[id].error == if ok then b.flights[id].current.error else Some(message))
  {
    FlightsAreInFlight(b, id);
    SettlementEnds(b, id, Returned(ok, sessionId, message));
    ReturnedRow(b, id, ok, sessionId, message);
  }

  /** A turn that threw leaves a failed row with its message. */
  lemma ThrownTurnFails(b: Bridge, id: string, message: string)
    requires Valid(b) && id in b.flights && b.flights[id].phase.InTurn?
    ensures var c := Step(b, OnTurnEnded(id, Threw(message)));
            && id in c.rows && SameCommand(c.rows[id], b.rows[id]) && Ended(b, c, id)
            && if Known(b, b.flights[id].current.sessionId)
               then c.rows[id].state.Failed? && c.rows[id].error == Some(message)
               else c.rows[id] == b.rows[id]
  {
    FlightsAreInFlight(b, id);
    SettlementEnds(b, id, Threw(message));
    ThrownRow(b, id, message);
  }

  /** Why the materials do not do, in the order of the checks. */
  predicate TooLarge(sizes: seq<Option<nat>>) {
    |sizes| > 10 || TotalBytes(sizes) > 83_886_080
  }

  /** The bytes are counted together, and a material that is not there counts none. */
  lemma {:induction false} BytesAddUp(a: seq<Option<nat>>, b: seq<Option<nat>>, size: Option<nat>)
    ensures TotalBytes(a + b) == TotalBytes(a) + TotalBytes(b)
    ensures TotalBytes([size]) == if size.Some? then size.value else 0
  {
    if a == [] {
      assert a + b == b;
    } else {
      BytesAddUp(a[1..], b, size);
      assert (a + b)[1..] == a[1..] + b;
    }
    assert [size][1..] == [];
  }

  /** A follow-up's session can take a turn. */
  predicate Free(b: Bridge, sessionId: Option<string>) {
    && sessionId.Some? && sessionId.value in b.sessions && sessionId.value !in b.leases
    && !b.sessions[sessionId.value].active && b.sessions[sessionId.value].hasCwd
  }

  /** A dispatch whose materials are there can start its turn. */
  predicate Starts(b: Bridge, id: string, sizes: seq<Option<nat>>)
    requires id in b.flights
  {
    && None !in sizes && !TooLarge(sizes)
    && (b.flights[id].current.kind.CreateTask? || Free(b, b.flights[id].current.sessionId))
  }

  /** A waiting dispatch starts its turn exactly when every material is there, they
      are not too many or too large, and a follow-up's session is free, which it
      then holds. */
  lemma MaterialsStartTheTurnExactlyWhen(b: Bridge, id: string, sizes: seq<Option<nat>>)
    requires Valid(b) && id in b.flights && b.flights[id].phase.AwaitingMaterials?
    ensures var c, current := Step(b, OnMaterials(id, sizes)), b.flights[id].current;
            var session := if current.kind.CreateTask? then None else current.sessionId;
            && id in c.flights && (c.flights[id].phase.InTurn? <==> Starts(b, id, sizes))
            && (Starts(b, id, sizes) ==>
                  && c.flights == b.flights[id := Flight(current, InTurn(session))]
                  && c.leases == (if session.Some? then b.leases[session.value := id] else b.leases)
                  && c.rows == b.rows && c.active == b.active)
  {
  }

  /** Otherwise the flight is over and the row fails, with the check that failed
      first as its error. */
  lemma RefusedMaterialsEndTheFlight(b: Bridge, id: string, sizes: seq<Option<nat>>)
    requires Valid(b) && id in b.flights && b.flights[id].phase.AwaitingMaterials? && !Starts(b, id, sizes)
    requires Known(b, b.flights[id].current.sessionId)
    ensures var c := Step(b, OnMaterials(id, sizes));
            && Ended(b, c, id) && c.rows[id].state.Failed? && SameCommand(c.rows[id], b.rows[id])
            && c.rows[id].error.Some?
            && (None in sizes ==> c.rows[id].error == Some(MATERIALS_NOT_READY))
            && (None !in sizes && TooLarge(sizes) ==> c.rows[id].error == Some(MATERIALS_TOO_LARGE))
  {
    FlightsAreInFlight(b, id);
    var refused, busy := MaterialsRefused(sizes), SendRefused(b, b.flights[id].current.sessionId);
    if refused.Some? {
      SettlementEnds(b, id, Threw(refused.value));
      ThrownRow(b, id, refused.value);
    } else {
      SettlementEnds(b, id, Returned(false, None, busy.value));
      ReturnedRow(b, id, false, None, busy.value);
    }
  }

  /** The session that a create announced is the row's from then on, and still is
      once its turn ends without naming one. */
  lemma AnnouncedSessionIsKept(b: Bridge, id: string, sessionId: string, ok: bool, message: string)
    requires Valid(b) && id in b.flights && b.flights[id].phase == InTurn(None) && sessionId in b.sessions
    ensures var c := Step(b, OnSession(id, sessionId));
            && id in c.rows && c.rows[id].sessionId == Some(sessionId) && c.rows[id].state.Running?
            && var d := Step(c, OnTurnEnded(id, Returned(ok, None, message)));
               id in d.rows && d.rows[id].sessionId == Some(sessionId) && (d.rows[id].state.Completed? <==> ok)
  {
    var c := Step(b, OnSession(id, sessionId));
    assert FlightOk(b, id) && RowOk(b, id);
    StepKeepsValid(b, OnSession(id, sessionId));
    TurnEndsAsItReturned(c, id, ok, None, message);
  }

  // ------------------------------------------------------------------ and going on

  /** A release frees the slot of a settled flight and of no other. */
  lemma ReleaseFreesExactlyTheSettled(b: Bridge, id: string, x: string)
    requires Valid(b)
    ensures var c := Step(b, OnReleased(id));
            && (x in c.active <==> x in b.active && !(x == id && x in b.flights && b.flights[x].phase.Settled?))
            && c == b.(active := c.active, flights := c.flights)
  {
    assert FlightOk(b, id) && FlightOk(b, x);
  }

  /** A cancel names a row by its id, or else by its key, and succeeds exactly when
      that row is queued or was canceled before. It cancels the queued row and
      changes nothing else. */
  lemma CancelCancelsExactlyTheQueued(b: Bridge, target: Option<string>, key: string, id: string)
    requires Valid(b) && id in b.rows && (if target.Some? then target.value == id else b.rows[id].key == key)
    ensures var (c, result) := CancelCommand(b, target, key);
            && (result.CancelOk? <==> b.rows[id].state.Queued? || b.rows[id].state.Canceled?)
            && (result.NotCancelable? <==> !result.CancelOk?)
            && c == b.(rows := c.rows) && c.rows.Keys == b.rows.Keys
            && c.rows[id] == (if b.rows[id].state.Queued? then b.rows[id].(state := Canceled) else b.rows[id])
            && (forall x :: x in b.rows && x != id ==> c.rows[x] == b.rows[x])
            && (result.CancelOk? ==> result.command == c.rows[id] && c.rows[id].state.Canceled?)
  {
    assert RowOk(b, id);
    FindByKeyFinds(b, id);
  }

  lemma CancelFindsNothingExactlyWhen(b: Bridge, target: Option<string>, key: string)
    requires Valid(b)
    ensures CancelCommand(b, target, key).1.CancelNotFound? <==>
            if target.Some? then target.value !in b.rows else KeyIsNew(b, key)
    ensures CancelCommand(b, target, key).1.CancelNotFound? ==> CancelCommand(b, target, key).0 == b
  {
    if target.None? && !KeyIsNew(b, key) {
      var id :| id in b.rows && b.rows[id].key == key;
      CancelCancelsExactlyTheQueued(b, target, key, id);
    } else if target.Some? && target.value in b.rows {
      CancelCancelsExactlyTheQueued(b, target, key, target.value);
    }
  }

  /** The place a command asks for is still good: a trusted workspace for a create,
      a known, certain session with a directory for a follow-up. */
  predicate StillValid(b: Bridge, command: TaskCommand) {
    if command.kind.CreateTask? then command.workspaceId.Some? && command.workspaceId.value in b.workspaces
    else
      && command.sessionId.Some? && command.sessionId.value in b.sessions
      && var session := b.sessions[command.sessionId.value]; !session.uncertain && !session.pending && session.hasCwd
  }

  /** A retry of a row that did not fail changes nothing, and one that is not valid
      any more only gets the reason as its error. */
  lemma RefusedRetryStays(b: Bridge, id: string)
    requires Valid(b) && id in b.rows && !(b.rows[id].state.Failed? && StillValid(b, b.rows[id]))
    ensures var c := Step(b, Retry(id));
            && id in c.rows && c == b.(rows := c.rows)
            && if b.rows[id].state.Failed? then c.rows == b.rows[id := b.rows[id].(error := c.rows[id].error)] &&
                                                c.rows[id].error.Some?
               else c.rows == b.rows
  {
  }

  /** What a pass makes of a row that waits in the queue. */
  predicate RunsOrWaits(b: Bridge, c: Bridge, id: string)
    requires id in b.rows
  {
    && id in c.rows && c.rows[id].error.None?
    && if id !in b.active && !SessionBusy(b, b.rows[id])
       then c.rows[id].state.Running? && c.marks[Launched(id)] == b.marks[Launched(id)] + 1
       else c.rows[id].state.Queued? && c.marks[Launched(id)] == b.marks[Launched(id)]
  }

  lemma PassRunsOrWaits(b: Bridge, id: string)
    requires Valid(b) && id in b.rows && b.rows[id].state.Queued? && b.rows[id].error.None?
    ensures RunsOrWaits(b, DispatchPass(b), id) && DispatchPass(b).marks[Retried(id)] == b.marks[Retried(id)]
  {
    TickLaunchesExactlyTheDispatchable(b, id);
    PassKeepsRetries(b, QueuedIn(b.rows, b.order), id);
  }

  /** A failed command that is still valid is admitted again by a retry: it runs at
      once unless its own last dispatch or its session is still busy. */
  lemma ValidRetryRunsOrWaits(b: Bridge, id: string)
    requires Valid(b) && id in b.rows && b.rows[id].state.Failed? && StillValid(b, b.rows[id])
    ensures var c := Step(b, Retry(id));
            RunsOrWaits(b, c, id) && c.marks[Retried(id)] == b.marks[Retried(id)] + 1
  {
    var again := QueuedAgain(b, id);
    RequeueKeepsValid(b, id);
    PassRunsOrWaits(again, id);
  }

  lemma {:induction false} PassKeepsRetries(b: Bridge, ids: seq<string>, id: string)
    ensures DispatchAll(b, ids).marks[Retried(id)] == b.marks[Retried(id)]
    ensures id in b.rows && b.rows[id].error.None? ==>
              id in DispatchAll(b, ids).rows && DispatchAll(b, ids).rows[id].error.None?
    decreases |ids|
  {
    if ids != [] {
      PassKeepsRetries(if Dispatchable(b, ids[0]) then Launch(b, ids[0]) else b, ids[1..], id);
    }
  }

  lemma {:induction false} DispatchClearsErrors(b: Bridge, ids: seq<string>, id: string)
    requires id in b.rows && b.rows[id].state.Queued?
    ensures var c := DispatchAll(b, ids); id in c.rows && (c.rows[id].state.Running? ==> c.rows[id].error.None?)
    decreases |ids|
  {
    if ids != [] {
      var next := if Dispatchable(b, ids[0]) then Launch(b, ids[0]) else b;
      if next.rows[id].state.Queued? {
        DispatchClearsErrors(next, ids[1..], id);
      } else {
        PassKeepsRetries(next, ids[1..], id);
      }
    }
  }

  /** What a pass launches runs without the error of an earlier attempt. */
  lemma LaunchedRunsWithoutError(b: Bridge, id: string)
    requires id in b.rows && b.rows[id].state.Queued?
    ensures var c := Step(b, Tick); id in c.rows && (c.rows[id].state.Running? ==> c.rows[id].error.None?)
  {
    DispatchClearsErrors(b, QueuedIn(b.rows, b.order), id);
  }

  /** The place a submission asks for is good. */
  predicate Good(b: Bridge, e: Event)
    requires e.Create? || e.FollowUp?
  {
    if e.Create? then e.workspaceId in b.workspaces
    else
      && e.sessionId in b.sessions
      && var session := b.sessions[e.sessionId]; !session.uncertain && !session.pending && session.hasCwd
  }

  lemma NewRowIsStored(b: Bridge, e: Event)
    requires Valid(b) && (e.Create? || e.FollowUp?) && Stores(b, e)
    ensures var c, command := Insert(b, SubmittedCommand(b, e)).bridge, SubmittedCommand(b, e);
            && Valid(c) && e.newId in c.rows && c.rows[e.newId] == command && Step(b, e) == DispatchPass(c)
            && c.sessions == b.sessions && e.newId !in c.active && c.marks[Launched(e.newId)] == 0
            && (command.state.Queued? <==> Good(b, e)) && (command.state.Failed? <==> !Good(b, e))
            && (command.error.Some? <==> !Good(b, e))
  {
    var command := SubmittedCommand(b, e);
    InsertStoresExactlyWhen(b, command);
    assert RowOk(b, e.newId) && FlightOk(b, e.newId);
    InsertKeepsValid(b, command);
  }

  /** A new submission is stored with its trimmed text for the place it names. It
      runs at once or waits for its session when that place is good; otherwise it
      has failed, with the reason as its error, and is never launched by itself. */
  lemma NewSubmissionRunsOrFails(b: Bridge, e: Event)
    requires Valid(b) && (e.Create? || e.FollowUp?) && Stores(b, e)
    ensures var c := Step(b, e);
            && e.newId in c.rows
            && var row := c.rows[e.newId];
               && row.text == Trim(e.text) && row.materialIds == e.materialIds && row.key == e.key
               && (row.kind.CreateTask? <==> e.Create?)
               && (if Good(b, e) then
                     row.error.None? &&
                     if e.FollowUp? && (b.sessions[e.sessionId].active || b.sessions[e.sessionId].working)
                     then row.state.Queued? && c.marks[Launched(e.newId)] == 0
                     else row.state.Running? && c.marks[Launched(e.newId)] == 1
                   else row.state.Failed? && row.error.Some? && c.marks[Launched(e.newId)] == 0)
  {
    var inserted := Insert(b, SubmittedCommand(b, e)).bridge;
    NewRowIsStored(b, e);
    DispatchQueuedKeepsValid(inserted);
    assert RowKept(inserted, DispatchPass(inserted), e.newId);
    if Good(b, e) {
      PassRunsOrWaits(inserted, e.newId);
    } else {
      TickLaunchesExactlyTheDispatchable(inserted, e.newId);
    }
  }

  /** Settled and released, a command is out of the way. */
  lemma EndedIsReleased(b: Bridge, id: string, outcome: TurnOutcome)
    requires Valid(b) && id in b.flights && b.flights[id].phase.InTurn?
    ensures var ended := Step(b, OnTurnEnded(id, outcome));
            var released := Step(ended, OnReleased(id));
            && Valid(released) && id !in released.active && released == ended.(active := released.active,
                                                                              flights := released.flights)
            && released.marks == b.marks
  {
    FlightsAreInFlight(b, id);
    SettlementEnds(b, id, outcome);
    StepKeepsValid(b, OnTurnEnded(id, outcome));
    var ended := Step(b, OnTurnEnded(id, outcome));
    ReleaseFreesExactlyTheSettled(ended, id, id);
    StepKeepsValid(ended, OnReleased(id));
  }

  /** A turn that failed can be run again: once its dispatch is released, a retry of
      a command that is still valid launches it. */
  lemma FailedTurnRunsAgain(b: Bridge, id: string, message: string)
    requires Valid(b) && id in b.flights && b.flights[id].phase.InTurn? && Known(b, b.flights[id].current.sessionId)
    requires var ended := Step(b, OnTurnEnded(id, Threw(message)));
             id in ended.rows && StillValid(ended, ended.rows[id]) && !SessionBusy(ended, ended.rows[id])
    ensures var c := Step(Step(Step(b, OnTurnEnded(id, Threw(message))), OnReleased(id)), Retry(id));
            id in c.rows && c.rows[id].state.Running? && c.marks[Launched(id)] == b.marks[Launched(id)] + 1
  {
    EndedIsReleased(b, id, Threw(message));
    ThrownTurnFails(b, id, message);
    ValidRetryRunsOrWaits(Step(Step(b, OnTurnEnded(id, Threw(message))), OnReleased(id)), id);
  }

  /** When sessions come or go, every row keeps its session exactly if that is still
      known, and otherwise has none; nothing else of it changes. */
  lemma RowsKeepKnownSessions(b: Bridge, sessions: map<string, Session>, id: string)
    requires id in b.rows
    ensures var c := Step(b, OnSessions(sessions));
            && c == b.(sessions := sessions, rows := c.rows) && c.rows.Keys == b.rows.Keys
            && c.rows[id] == b.rows[id].(sessionId := c.rows[id].sessionId)
            && c.rows[id].sessionId == if Known(c, b.rows[id].sessionId) then b.rows[id].sessionId else None
  {
  }
}
