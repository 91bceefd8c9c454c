/** Pairing a phone: the cloud room that passes one request and its answer, and
    the device manager that turns a proven pairing into one device. */
module PairingRoom {
  import opened Keys

  datatype Registration = Registration(installation: string, tokenHash: string, expiresAt: int)

  datatype Completion = Completion(requestId: string, status: int, response: string)

  /** A request past its checks on arrival: it waits for its body or a digest
      while others run, and holds the registration it saw then. */
  datatype Handler =
    | DeviceHandler(seen: Registration, token: Option<string>)
    | ResultHandler(seen: Registration, given: string, requestId: string)
    | CompleteHandler(body: Option<Completion>)

  /** The three storage keys and the suspended handlers. A registration's life
      ends when the storage is cleared; `accepted`, `completed` and `handed` list,
      by life, the request ids accepted, what the Mac completed and what was
      handed to the device. */
  datatype Room = Room(
    registration: Option<Registration>, pending: Option<string>, completion: Option<Completion>,
    handlers: map<nat, Handler>, next: nat,
    accepted: seq<seq<string>>, completed: seq<seq<Completion>>, handed: seq<seq<Completion>>)

  const EMPTY := Room(None, None, None, map[], 0, [[]], [[]], [[]])

  /** `deleteAll`: the next life begins. */
  function Cleared(r: Room): Room {
    r.(registration := None, pending := None, completion := None,
    accepted := r.accepted + [[]], completed := r.completed + [[]], handed := r.handed + [[]])
  }

  predicate Acceptable(body: Option<Registration>, now: int) {
    body.Some? && body.value.installation != "" && body.value.tokenHash != "" && now < body.value.expiresAt
  }

  function Registered(r: Room, body: Option<Registration>, now: int): Room {
    if !Acceptable(body, now) then r
    else if r.registration.Some? && r.registration.value.installation != body.value.installation then r
    else r.(registration := body)
  }

  predicate Live(r: Room, now: int) {
    r.registration.Some? && now < r.registration.value.expiresAt
  }

  function Suspended(r: Room, handler: Handler): Room {
    r.(handlers := r.handlers[r.next := handler], next := r.next + 1)
  }

  function DeviceArrived(r: Room, token: Option<string>, now: int): Room {
    if !Live(r, now) then Cleared(r) else Suspended(r, DeviceHandler(r.registration.value, token))
  }

  function ResultArrived(r: Room, token: string, requestId: string, now: int): Room {
    if !Live(r, now) then Cleared(r) else Suspended(r, ResultHandler(r.registration.value, token, requestId))
  }

  predicate Authorized(r: Room, installation: string) {
    r.registration.Some? && r.registration.value.installation == installation
  }

  function CompleteArrived(r: Room, installation: string, body: Option<Completion>, now: int): Room {
    if !Live(r, now) then Cleared(r)
    else if !Authorized(r, installation) then r
    else Suspended(r, CompleteHandler(body))
  }

  function Cancelled(r: Room, installation: string, now: int): Room {
    if !Live(r, now) || Authorized(r, installation) then Cleared(r) else r
  }

  /** `drawn` is a random request id, used if one is needed. */
  function DeviceResumed(r: Room, handler: Handler, drawn: string, digest: string -> string): Room
    requires handler.DeviceHandler?
  {
    if handler.token.None? || digest(handler.token.value) != handler.seen.tokenHash then r
    else if r.completion.Some? || r.pending.Some? then r
    else
      var n := |r.accepted| - 1;
      if n < 0 then r else r.(pending := Some(drawn), accepted := r.accepted[n := r.accepted[n] + [drawn]])
  }

  function ResultResumed(r: Room, handler: Handler, digest: string -> string): Room
    requires handler.ResultHandler?
  {
    if handler.given == "" || digest(handler.given) != handler.seen.tokenHash then r
    else if r.completion.None? || r.completion.value.requestId != handler.requestId then r
    else
      var n := |r.handed| - 1;
      if n < 0 then r else Cleared(r.(handed := r.handed[n := r.handed[n] + [r.completion.value]]))
  }

  function CompleteResumed(r: Room, handler: Handler): Room
    requires handler.CompleteHandler?
  {
    if r.pending.None? || handler.body.None? || handler.body.value.requestId != r.pending.value then r
    else
      var n := |r.completed| - 1;
      if n < 0 then r
      else r.(completion := handler.body, completed := r.completed[n := r.completed[n] + [handler.body.value]])
  }

  function Resumed(r: Room, id: nat, drawn: string, digest: string -> string): Room {
    if id !in r.handlers then r
    else
      var handler, rest := r.handlers[id], r.(handlers := r.handlers - {id});
      match handler
      case DeviceHandler(_, _) => DeviceResumed(rest, handler, drawn, digest)
      case ResultHandler(_, _, _) => ResultResumed(rest, handler, digest)
      case CompleteHandler(_) => CompleteResumed(rest, handler)
  }

  datatype Event =
    | Register(registration: Option<Registration>, now: int)
    | Device(token: Option<string>, now: int)
    | Result(deviceToken: string, requestId: string, now: int)
    | Complete(installation: string, body: Option<Completion>, now: int)
    | Cancel(installation: string, now: int)
    | Alarm
    | Resume(id: nat, drawn: string)

  function Step(r: Room, e: Event, digest: string -> string): Room {
    match e
    case Register(body, now) => Registered(r, body, now)
    case Device(token, now) => DeviceArrived(r, token, now)
    case Result(token, requestId, now) => ResultArrived(r, token, requestId, now)
    case Complete(installation, body, now) => CompleteArrived(r, installation, body, now)
    case Cancel(installation, now) => Cancelled(r, installation, now)
    case Alarm => Cleared(r)
    case Resume(id, drawn) => Resumed(r, id, drawn, digest)
  }

  function Run(r: Room, events: seq<Event>, digest: string -> string): Room
    decreases |events|
  {
    if events == [] then r else Run(Step(r, events[0], digest), events[1..], digest)
  }

  predicate Drawn(accepted: seq<seq<string>>, id: string) {
    exists i :: 0 <= i < |accepted| && id in accepted[i]
  }

  /** Request ids are random UUIDs, never drawn before. */
  ghost predicate PossibleRun(r: Room, events: seq<Event>, digest: string -> string)
    decreases |events|
  {
    events == [] ||
    ((events[0].Resume? ==> !Drawn(r.accepted, events[0].drawn)) &&
     PossibleRun(Step(r, events[0], digest), events[1..], digest))
  }

  // ------------------------------------------------------------------ invariants

  /** In one life: one request at most, completions only for it, and at most one
      of them handed out. */
  predicate LifeOk(accepted: seq<string>, completed: seq<Completion>, handed: seq<Completion>) {
    && |accepted| <= 1 && |handed| <= 1
    && (forall i :: 0 <= i < |completed| ==> accepted == [completed[i].requestId])
    && (handed != [] ==> handed[0] in completed)
  }

  ghost predicate LivesOk(accepted: seq<seq<string>>, completed: seq<seq<Completion>>, handed: seq<seq<Completion>>) {
    && |accepted| == |completed| == |handed|
    && (forall i :: 0 <= i < |accepted| ==> LifeOk(accepted[i], completed[i], handed[i]))
  }

  ghost predicate IdsDiffer(accepted: seq<seq<string>>) {
    forall i, j :: 0 <= i < j < |accepted| && accepted[i] != [] && accepted[j] != [] ==> accepted[i] != accepted[j]
  }

  /** The storage agrees with the current life, which has handed out nothing. */
  predicate StorageOk(r: Room) {
    && r.accepted != [] && |r.accepted| == |r.completed| == |r.handed|
    && var n := |r.accepted| - 1;
       && r.accepted[n] == (if r.pending.Some? then [r.pending.value] else []) && r.handed[n] == []
       && (r.completion.Some? ==> r.completed[n] != [] && r.completion.value == r.completed[n][|r.completed[n]| - 1])
       && (r.completion.None? ==> r.completed[n] == [])
  }

  ghost predicate Valid(r: Room) {
    LivesOk(r.accepted, r.completed, r.handed) && IdsDiffer(r.accepted) && StorageOk(r)
  }

  lemma ClearedKeepsValid(r: Room)
    requires LivesOk(r.accepted, r.completed, r.handed) && IdsDiffer(r.accepted)
    ensures Valid(Cleared(r))
  {
  }

  lemma DeviceResumedKeepsValid(r: Room, handler: Handler, drawn: string, digest: string -> string)
    requires Valid(r) && handler.DeviceHandler? && !Drawn(r.accepted, drawn)
    ensures Valid(DeviceResumed(r, handler, drawn, digest))
  {
    var d, n := DeviceResumed(r, handler, drawn, digest), |r.accepted| - 1;
    assert LifeOk(r.accepted[n], r.completed[n], r.handed[n]);
    if d != r {
      assert r.pending.None? && r.accepted[n] == [];
      assert r.accepted[n] + [drawn] == [drawn];
      forall i | 0 <= i < |d.accepted| ensures LifeOk(d.accepted[i], d.completed[i], d.handed[i]) {
        assert LifeOk(r.accepted[i], r.completed[i], r.handed[i]);
      }
      forall i, j | 0 <= i < j < |d.accepted| && d.accepted[i] != [] && d.accepted[j] != []
        ensures d.accepted[i] != d.accepted[j]
      {
        assert d.accepted[j] == [drawn] ==> drawn !in r.accepted[i];
      }
    }
  }

  lemma CompleteResumedKeepsValid(r: Room, handler: Handler)
    requires Valid(r) && handler.CompleteHandler?
    ensures Valid(CompleteResumed(r, handler))
  {
    var d, n := CompleteResumed(r, handler), |r.accepted| - 1;
    forall i | 0 <= i < |d.accepted| ensures LifeOk(d.accepted[i], d.completed[i], d.handed[i]) {
      assert LifeOk(r.accepted[i], r.completed[i], r.handed[i]);
    }
  }

  lemma ResultResumedKeepsValid(r: Room, handler: Handler, digest: string -> string)
    requires Valid(r) && handler.ResultHandler?
    ensures Valid(ResultResumed(r, handler, digest))
  {
    var n := |r.accepted| - 1;
    if ResultResumed(r, handler, digest) != r {
      var handing := r.(handed := r.handed[n := r.handed[n] + [r.completion.value]]);
      forall i | 0 <= i < |r.accepted| ensures LifeOk(handing.accepted[i], handing.completed[i], handing.handed[i]) {
        assert LifeOk(r.accepted[i], r.completed[i], r.handed[i]);
      }
      ClearedKeepsValid(handing);
    }
  }

  lemma StepKeepsValid(r: Room, e: Event, digest: string -> string)
    requires Valid(r) && (e.Resume? ==> !Drawn(r.accepted, e.drawn))
    ensures Valid(Step(r, e, digest))
  {
    ClearedKeepsValid(r);
    if e.Resume? && e.id in r.handlers {
      var handler, rest := r.handlers[e.id], r.(handlers := r.handlers - {e.id});
      match handler
      case DeviceHandler(_, _) => DeviceResumedKeepsValid(rest, handler, e.drawn, digest);
      case ResultHandler(_, _, _) => ResultResumedKeepsValid(rest, handler, digest);
      case CompleteHandler(_) => CompleteResumedKeepsValid(rest, handler);
    }
  }

  lemma {:induction false} RunKeepsValid(r: Room, events: seq<Event>, digest: string -> string)
    requires Valid(r) && PossibleRun(r, events, digest)
    ensures Valid(Run(r, events, digest))
    decreases |events|
  {
    if events != [] {
      StepKeepsValid(r, events[0], digest);
      RunKeepsValid(Step(r, events[0], digest), events[1..], digest);
    }
  }

  // ---------------------------------------------------------------- main results

  /** Over all interleavings, late handlers included: one registration accepts at
      most one request, and hands out at most one completion, which the Mac gave
      for that very request. */
  lemma OneRequestOneCompletion(events: seq<Event>, digest: string -> string, life: nat)
    requires PossibleRun(EMPTY, events, digest) && life < |Run(EMPTY, events, digest).accepted|
    ensures var r := Run(EMPTY, events, digest);
            && life < |r.completed| && life < |r.handed| && |r.accepted[life]| <= 1 && |r.handed[life]| <= 1
            && (r.handed[life] != [] ==>
                  r.handed[life][0] in r.completed[life] && r.accepted[life] == [r.handed[life][0].requestId])
  {
    RunKeepsValid(EMPTY, events, digest);
    var r := Run(EMPTY, events, digest);
    assert LifeOk(r.accepted[life], r.completed[life], r.handed[life]);
  }

  /** And no request id ever gets two answers, whatever is registered later. */
  lemma NoSecondAnswer(events: seq<Event>, digest: string -> string, i: nat, j: nat)
    requires PossibleRun(EMPTY, events, digest) && i < j < |Run(EMPTY, events, digest).handed|
    requires var handed := Run(EMPTY, events, digest).handed; handed[i] != [] && handed[j] != []
    ensures var handed := Run(EMPTY, events, digest).handed; handed[i][0].requestId != handed[j][0].requestId
  {
    RunKeepsValid(EMPTY, events, digest);
    OneRequestOneCompletion(events, digest, i);
    OneRequestOneCompletion(events, digest, j);
  }

  /** A device that polls with the right token and its own request id is handed
      the completion exactly when there is one for it. */
  lemma HandedExactlyWhenCompleted(r: Room, handler: Handler, digest: string -> string)
    requires Valid(r) && handler.ResultHandler?
    ensures ResultResumed(r, handler, digest) != r <==>
            && handler.given != "" && digest(handler.given) == handler.seen.tokenHash
            && r.pending == Some(handler.requestId) && r.completion.Some?
  {
    var n := |r.accepted| - 1;
    assert LifeOk(r.accepted[n], r.completed[n], r.handed[n]);
    if r.completion.Some? {
      assert r.accepted[n] == [r.completion.value.requestId];
      assert |Cleared(r).accepted| != |r.accepted|;
    }
  }

  // ------------------------------------------------------------- what is decided

  /** A registration is stored exactly when it is complete and not expired, and none
      of another installation is there; a request already waiting is kept. */
  lemma RegisteredExactlyWhen(r: Room, body: Option<Registration>, now: int, digest: string -> string)
    ensures var accepted := body.Some? && body.value.installation != "" && body.value.tokenHash != "" &&
                            now < body.value.expiresAt &&
                            (r.registration.Some? ==> r.registration.value.installation == body.value.installation);
            Step(r, Register(body, now), digest) == if accepted then r.(registration := body) else r
  {
  }

  /** A handler that waits with what it saw; nothing else has changed. */
  predicate Waits(r: Room, d: Room, handler: Handler) {
    d == r.(handlers := r.handlers[r.next := handler], next := r.next + 1)
  }

  /** Whoever comes when no registration is live finds, and leaves, an empty room. */
  predicate Emptied(r: Room, d: Room) {
    && d.registration.None? && d.pending.None? && d.completion.None? && d.handlers == r.handlers && d.next == r.next
    && |d.accepted| == |r.accepted| + 1 && d.accepted[..|r.accepted|] == r.accepted && d.accepted[|r.accepted|] == []
    && |d.completed| == |r.completed| + 1 && d.completed[..|r.completed|] == r.completed
    && |d.handed| == |r.handed| + 1 && d.handed[..|r.handed|] == r.handed
  }

  lemma ArrivalsNeedALiveRegistration(r: Room, token: Option<string>, given: string, requestId: string,
                                      installation: string, body: Option<Completion>, now: int,
                                      digest: string -> string)
    ensures var live := r.registration.Some? && now < r.registration.value.expiresAt;
            var device, poll := Step(r, Device(token, now), digest), Step(r, Result(given, requestId, now), digest);
            var complete, cancel := Step(r, Complete(installation, body, now), digest),
                                    Step(r, Cancel(installation, now), digest);
            if !live then Emptied(r, device) && Emptied(r, poll) && Emptied(r, complete) && Emptied(r, cancel)
            else
              && Waits(r, device, DeviceHandler(r.registration.value, token))
              && Waits(r, poll, ResultHandler(r.registration.value, given, requestId))
              && if installation == r.registration.value.installation
                 then Waits(r, complete, CompleteHandler(body)) && Emptied(r, cancel)
                 else complete == r && cancel == r
  {
  }

  /** A device's request is accepted exactly when its token is the registered one and
      neither a request nor a completion is there yet. */
  lemma AcceptedExactlyWhen(r: Room, handler: Handler, drawn: string, digest: string -> string)
    requires Valid(r) && handler.DeviceHandler?
    ensures var d := DeviceResumed(r, handler, drawn, digest);
            if handler.token.Some? && digest(handler.token.value) == handler.seen.tokenHash && r.pending.None?
            then && d == r.(pending := Some(drawn), accepted := d.accepted) && |d.accepted| == |r.accepted|
                 && d.accepted[|r.accepted| - 1] == [drawn]
            else d == r
  {
    var n := |r.accepted| - 1;
    assert LifeOk(r.accepted[n], r.completed[n], r.handed[n]);
  }

  /** A completion is stored exactly when it names the request that waits. */
  lemma CompletedExactlyWhen(r: Room, handler: Handler)
    requires Valid(r) && handler.CompleteHandler?
    ensures var d, n := CompleteResumed(r, handler), |r.completed| - 1;
            if handler.body.Some? && r.pending == Some(handler.body.value.requestId)
            then && d == r.(completion := handler.body, completed := d.completed) && |d.completed| == |r.completed|
                 && d.completed[n] == r.completed[n] + [handler.body.value]
            else d == r
  {
  }

  /** A poll with the right token and the waiting request id is answered with the
      completion, once, and empties the room; any other poll changes nothing. */
  lemma HandingEmptiesTheRoom(r: Room, handler: Handler, digest: string -> string)
    requires Valid(r) && handler.ResultHandler?
    ensures var d, n := ResultResumed(r, handler, digest), |r.handed| - 1;
            if handler.given != "" && digest(handler.given) == handler.seen.tokenHash && r.completion.Some? &&
               r.completion.value.requestId == handler.requestId
            then && d.registration.None? && d.pending.None? && d.completion.None?
                 && |d.handed| == |r.handed| + 1 && d.handed[n] == [r.completion.value] && d.handed[n + 1] == []
            else d == r
  {
    assert r.handed[|r.handed| - 1] == [];
  }

  /** A handler that waits resumes once, and leaves the others waiting. */
  lemma HandlersResumeOnce(r: Room, id: nat, drawn: string, digest: string -> string)
    ensures Step(r, Resume(id, drawn), digest).handlers == r.handlers - {id}
  {
  }

  /** A registration that a phone can use, and what a resumed handler leaves of it. */
  ghost predicate InUse(r: Room, registration: Registration, pending: Option<string>, now: int) {
    Valid(r) && r.registration == Some(registration) && now < registration.expiresAt && r.pending == pending
  }

  lemma RequestSucceeds(r: Room, registration: Registration, token: string, drawn: string, now: int,
                        digest: string -> string) returns (d: Room)
    requires InUse(r, registration, None, now) && digest(token) == registration.tokenHash && !Drawn(r.accepted, drawn)
    ensures d == Step(Step(r, Device(Some(token), now), digest), Resume(r.next, drawn), digest)
    ensures InUse(d, registration, Some(drawn), now) && d.handed == r.handed
  {
    var waiting := Step(r, Device(Some(token), now), digest);
    StepKeepsValid(r, Device(Some(token), now), digest);
    StepKeepsValid(waiting, Resume(r.next, drawn), digest);
    d := Step(waiting, Resume(r.next, drawn), digest);
    AcceptedExactlyWhen(waiting.(handlers := waiting.handlers - {r.next}), waiting.handlers[r.next], drawn, digest);
  }

  lemma CompletionSucceeds(r: Room, registration: Registration, answer: Completion, now: int, other: string,
                           digest: string -> string) returns (d: Room)
    requires InUse(r, registration, Some(answer.requestId), now) && !Drawn(r.accepted, other)
    ensures d ==
            Step(Step(r, Complete(registration.installation, Some(answer), now), digest), Resume(r.next, other), digest)
    ensures InUse(d, registration, Some(answer.requestId), now) && d.handed == r.handed && d.completion == Some(answer)
  {
    var e := Complete(registration.installation, Some(answer), now);
    var waiting := Step(r, e, digest);
    StepKeepsValid(r, e, digest);
    StepKeepsValid(waiting, Resume(r.next, other), digest);
    d := Step(waiting, Resume(r.next, other), digest);
    CompletedExactlyWhen(waiting.(handlers := waiting.handlers - {r.next}), waiting.handlers[r.next]);
  }

  lemma PollSucceeds(r: Room, registration: Registration, token: string, answer: Completion, now: int, other: string,
                     digest: string -> string) returns (d: Room)
    requires InUse(r, registration, Some(answer.requestId), now) && r.completion == Some(answer)
    requires token != "" && digest(token) == registration.tokenHash
    ensures d == Step(Step(r, Result(token, answer.requestId, now), digest), Resume(r.next, other), digest)
    ensures d.registration.None? && |d.handed| == |r.handed| + 1 && d.handed[|r.handed| - 1] == [answer]
  {
    var e := Result(token, answer.requestId, now);
    var waiting := Step(r, e, digest);
    StepKeepsValid(r, e, digest);
    d := Step(waiting, Resume(r.next, other), digest);
    HandingEmptiesTheRoom(waiting.(handlers := waiting.handlers - {r.next}), waiting.handlers[r.next], digest);
  }

  /** The whole exchange: a phone with the right token gets its request accepted, the
      Mac completes it, and the next poll is given that completion. */
  lemma ExchangeSucceeds(r: Room, registration: Registration, token: string, drawn: string, status: int,
                         response: string, other: string, now: int, digest: string -> string)
    requires InUse(r, registration, None, now) && token != "" && digest(token) == registration.tokenHash
    requires !Drawn(r.accepted, drawn)
    requires var asked := Step(Step(r, Device(Some(token), now), digest), Resume(r.next, drawn), digest);
             !Drawn(asked.accepted, other)
    ensures var answer := Completion(drawn, status, response);
            var asked := Step(Step(r, Device(Some(token), now), digest), Resume(r.next, drawn), digest);
            var completed := Step(Step(asked, Complete(registration.installation, Some(answer), now), digest),
                                  Resume(asked.next, other), digest);
            var handed := Step(Step(completed, Result(token, drawn, now), digest), Resume(completed.next, other),
                               digest);
            handed.registration.None? && |handed.handed| == |r.handed| + 1 && handed.handed[|r.handed| - 1] == [answer]
  {
    var asked := RequestSucceeds(r, registration, token, drawn, now, digest);
    var completed := CompletionSucceeds(asked, registration, Completion(drawn, status, response), now, other, digest);
    var handed := PollSucceeds(completed, registration, token, Completion(drawn, status, response), now, other, digest);
  }

  // ------------------------------------------------------------------- the object

  /** Durable storage; the suspended handlers and the history are for the proofs. */
  class DurablePairingRoom {
    var registration: Option<Registration>
    var pending: Option<string>
    var completion: Option<Completion>
    ghost var record: Room

    ghost function State(): Room
      reads this
    {
      record.(registration := registration, pending := pending, completion := completion)
    }

    constructor ()
      ensures State() == EMPTY
    {
      registration, pending, completion, record := None, None, None, EMPTY;
    }

    method DeleteAll()
      modifies this
      ensures State() == Cleared(old(State()))
    {
      record := record.(accepted := record.accepted + [[]], completed := record.completed + [[]],
      handed := record.handed + [[]]);
      registration, pending, completion := None, None, None;
    }

    method RegisterPairing(body: Option<Registration>, now: int) returns (ok: bool)
      modifies this
      ensures State() == Registered(old(State()), body, now)
      ensures ok <==>
              Acceptable(body, now) &&
              (old(registration).Some? ==> old(registration).value.installation == body.value.installation)
    {
      if body.None? || body.value.installation == "" || body.value.tokenHash == "" || body.value.expiresAt <= now {
        return false;
      }
      if registration.Some? && registration.value.installation != body.value.installation {
        return false;
      }
      registration := body;
      ok := true;
    }

    /** The check every other request starts with. */
    method StillLive(now: int) returns (live: bool)
      modifies this
      ensures live == Live(old(State()), now) && State() == if live then old(State()) else Cleared(old(State()))
    {
      live := registration.Some? && now < registration.value.expiresAt;
      if !live {
        DeleteAll();
      }
    }

    ghost method Await(handler: Handler)
      modifies this`record
      ensures State() == Suspended(old(State()), handler)
    {
      record := record.(handlers := record.handlers[record.next := handler], next := record.next + 1);
    }

    method ArriveDevice(token: Option<string>, now: int)
      modifies this
      ensures State() == DeviceArrived(old(State()), token, now)
    {
      var live := StillLive(now);
      if live {
        Await(DeviceHandler(registration.value, token));
      }
    }

    method ArriveResult(token: string, requestId: string, now: int)
      modifies this
      ensures State() == ResultArrived(old(State()), token, requestId, now)
    {
      var live := StillLive(now);
      if live {
        Await(ResultHandler(registration.value, token, requestId));
      }
    }

    method ArriveComplete(installation: string, body: Option<Completion>, now: int)
      modifies this
      ensures State() == CompleteArrived(old(State()), installation, body, now)
    {
      var live := StillLive(now);
      if live && registration.value.installation == installation {
        Await(CompleteHandler(body));
      }
    }

    method CancelByMac(installation: string, now: int)
      modifies this
      ensures State() == Cancelled(old(State()), installation, now)
    {
      var live := StillLive(now);
      if live && registration.value.installation == installation {
        DeleteAll();
      }
    }

    /** From the first storage read on, without interruption. */
    method AcceptDeviceRequest(handler: Handler, drawn: string, digest: string -> string)
      returns (requestId: Option<string>)
      requires handler.DeviceHandler? && State().accepted != []
      modifies this
      ensures State() == DeviceResumed(old(State()), handler, drawn, digest)
      ensures requestId ==
              if handler.token.Some? && digest(handler.token.value) == handler.seen.tokenHash && old(completion).None?
                           then (if old(pending).Some? then old(pending) else Some(drawn)) else None
    {
      if handler.token.None? || digest(handler.token.value) != handler.seen.tokenHash || completion.Some? {
        return None;
      }
      if pending.Some? {
        return pending;
      }
      ghost var n := |record.accepted| - 1;
      record := record.(accepted := record.accepted[n := record.accepted[n] + [drawn]]);
      pending := Some(drawn);
      requestId := pending;
    }

    method DeviceResult(handler: Handler, digest: string -> string) returns (answer: Option<Completion>)
      requires handler.ResultHandler? && State().handed != []
      modifies this
      ensures State() == ResultResumed(old(State()), handler, digest)
      ensures answer == if State() != old(State()) then old(completion) else None
    {
      ghost var before := State();
      if handler.given == "" || digest(handler.given) != handler.seen.tokenHash {
        return None;
      }
      if completion.None? || completion.value.requestId != handler.requestId {
        return None;
      }
      answer := completion;
      ghost var n := |record.handed| - 1;
      record := record.(handed := record.handed[n := record.handed[n] + [completion.value]]);
      DeleteAll();
      assert |State().accepted| != |before.accepted|;
    }

    method CompletePairing(handler: Handler) returns (ok: bool)
      requires handler.CompleteHandler? && State().completed != []
      modifies this
      ensures State() == CompleteResumed(old(State()), handler)
      ensures ok <==> old(pending).Some? && handler.body.Some? && handler.body.value.requestId == old(pending).value
    {
      if pending.None? || handler.body.None? || handler.body.value.requestId != pending.value {
        return false;
      }
      ghost var n := |record.completed| - 1;
      record := record.(completed := record.completed[n := record.completed[n] + [handler.body.value]]);
      completion := handler.body;
      ok := true;
    }
  }
}

/** The Bridge's side: a proven pairing becomes exactly one device. */
module DevicePairing {
  import opened Keys

  const LIFETIME := 120_000

  datatype Pairing = Pairing(expiresAt: int, used: bool)

  /** How one attempt goes: the client's key may not decode, its proof may not
      verify, and storing the device may fail. */
  datatype Attempt = BadKey | BadProof | StoreFails | Proven(device: string)

  /** `made` lists the devices of each pairing. */
  datatype Manager = Manager(pairings: map<string, Pairing>, made: map<string, seq<string>>)

  const EMPTY := Manager(map[], map[])

  function Made(m: Manager, id: string): seq<string> {
    if id in m.made then m.made[id] else []
  }

  function Pruned(m: Manager, now: int): Manager {
    m.(pairings := map id | id in m.pairings && !m.pairings[id].used && now < m.pairings[id].expiresAt ::
                     m.pairings[id])
  }

  function Created(m: Manager, id: string, now: int): Manager {
    var pruned := Pruned(m, now);
    pruned.(pairings := pruned.pairings[id := Pairing(now + LIFETIME, false)])
  }

  function Cancelled(m: Manager, id: string, now: int): Manager {
    var pruned := Pruned(m, now);
    pruned.(pairings := pruned.pairings - {id})
  }

  /** The pairing counts as used before its device is stored. */
  function Completed(m: Manager, id: string, attempt: Attempt, now: int): Manager {
    if id !in m.pairings || m.pairings[id].used || m.pairings[id].expiresAt <= now then m
    else
      match attempt
      case BadKey => m
      case BadProof => m
      case StoreFails => m.(pairings := m.pairings[id := m.pairings[id].(used := true)])
      case Proven(device) => Manager(m.pairings - {id}, m.made[id := Made(m, id) + [device]])
  }

  datatype Event =
    | Create(id: string, now: int)
    | Cancel(id: string, now: int)
    | Complete(id: string, attempt: Attempt, now: int)
    | Restart

  function Step(m: Manager, e: Event): Manager {
    match e
    case Create(id, now) => Created(m, id, now)
    case Cancel(id, now) => Cancelled(m, id, now)
    case Complete(id, attempt, now) => Completed(m, id, attempt, now)
    case Restart => m.(pairings := map[])
  }

  function Run(m: Manager, events: seq<Event>): Manager
    decreases |events|
  {
    if events == [] then m else Run(Step(m, events[0]), events[1..])
  }

  /** Pairing ids are fresh UUIDs. */
  ghost predicate PossibleRun(m: Manager, events: seq<Event>)
    decreases |events|
  {
    events == [] ||
    ((events[0].Create? ==> events[0].id !in m.made && events[0].id !in m.pairings) &&
     PossibleRun(Step(m, events[0]), events[1..]))
  }

  ghost predicate Valid(m: Manager) {
    && (forall id :: id in m.made ==> |m.made[id]| == 1)
    && (forall id :: id in m.pairings ==> id !in m.made)
  }

  lemma {:induction false} RunKeepsValid(m: Manager, events: seq<Event>)
    requires Valid(m) && PossibleRun(m, events)
    ensures Valid(Run(m, events))
    decreases |events|
  {
    if events != [] {
      assert Valid(Step(m, events[0]));
      RunKeepsValid(Step(m, events[0]), events[1..]);
    }
  }

  /** At most one device per pairing, over all attempts, failures, cancellations
      and restarts. */
  lemma OneDevicePerPairing(events: seq<Event>, id: string)
    requires PossibleRun(EMPTY, events)
    ensures |Made(Run(EMPTY, events), id)| <= 1
  {
    RunKeepsValid(EMPTY, events);
  }

  /** An attempt makes a device exactly when it is proven and stored for a pairing
      that is there, unused and unexpired. */
  lemma MadeExactlyWhen(m: Manager, id: string, attempt: Attempt, now: int)
    ensures Made(Completed(m, id, attempt, now), id) != Made(m, id) <==>
            attempt.Proven? && id in m.pairings && !m.pairings[id].used && now < m.pairings[id].expiresAt
  {
    if attempt.Proven? {
      assert |Made(m, id) + [attempt.device]| != |Made(m, id)|;
    }
  }

  /** A pairing once used, cancelled or completed never makes a device again. */
  lemma {:induction false} SpentPairingsStaySpent(m: Manager, events: seq<Event>, id: string)
    requires Valid(m) && PossibleRun(m, events) && (id in m.pairings ==> m.pairings[id].used)
    requires forall i :: 0 <= i < |events| && events[i].Create? ==> events[i].id != id
    ensures Made(Run(m, events), id) == Made(m, id)
    decreases |events|
  {
    if events != [] {
      var next := Step(m, events[0]);
      assert Valid(next) && Made(next, id) == Made(m, id);
      SpentPairingsStaySpent(next, events[1..], id);
    }
  }

  /** The pairing can still become a device at this time. */
  predicate Open(m: Manager, id: string, now: int) {
    id in m.pairings && !m.pairings[id].used && now < m.pairings[id].expiresAt
  }

  /** A new pairing is open for exactly two minutes; the others go exactly when
      they are used or over. */
  lemma CreatedIsOpenForItsLifetime(m: Manager, id: string, now: int, later: int)
    ensures Open(Created(m, id, now), id, later) <==> later < now + 120_000
    ensures forall other :: other != id ==>
              (other in Created(m, id, now).pairings <==> Open(m, other, now))
    ensures forall other :: other != id && other in Created(m, id, now).pairings ==>
              Created(m, id, now).pairings[other] == m.pairings[other]
  {
  }

  /** A cancelled pairing is gone; the others go exactly when they are used or over. */
  lemma CancelledIsGone(m: Manager, id: string, now: int)
    ensures forall other :: other in Cancelled(m, id, now).pairings <==> other != id && Open(m, other, now)
    ensures forall other :: other in Cancelled(m, id, now).pairings ==>
              Cancelled(m, id, now).pairings[other] == m.pairings[other]
  {
  }

  /** What closes a pairing: its cancellation, an attempt that passed both checks,
      stored or not, or a restart of the Bridge. A failed key or proof does not. */
  predicate Spends(e: Event, id: string) {
    match e
    case Create(_, _) => false
    case Cancel(other, _) => other == id
    case Complete(other, attempt, _) => other == id && (attempt.StoreFails? || attempt.Proven?)
    case Restart => true
  }

  predicate NotLaterThan(e: Event, now: int) {
    e.Restart? || e.now <= now
  }

  lemma StaysOpenUnlessSpent(m: Manager, e: Event, id: string, now: int)
    requires e.Create? ==> e.id != id
    requires NotLaterThan(e, now)
    ensures Open(Step(m, e), id, now) <==> Open(m, id, now) && !Spends(e, id)
  {
  }

  /** A pairing is open exactly when it was and nothing since has spent it. */
  lemma {:induction false} OpenExactlyWhenUnspent(m: Manager, events: seq<Event>, id: string, now: int)
    requires forall i ::
               0 <= i < |events| ==> NotLaterThan(events[i], now) && (events[i].Create? ==> events[i].id != id)
    ensures Open(Run(m, events), id, now) <==>
            Open(m, id, now) && forall i :: 0 <= i < |events| ==> !Spends(events[i], id)
    decreases |events|
  {
    if events != [] {
      var rest := events[1..];
      assert forall i :: 0 <= i < |rest| ==> rest[i] == events[i + 1];
      assert events == [events[0]] + rest;
      StaysOpenUnlessSpent(m, events[0], id, now);
      OpenExactlyWhenUnspent(Step(m, events[0]), rest, id, now);
      assert (forall i :: 0 <= i < |events| ==> !Spends(events[i], id)) <==>
             !Spends(events[0], id) && forall i :: 0 <= i < |rest| ==> !Spends(rest[i], id);
    }
  }

  /** A proven attempt makes its device exactly when it comes within two minutes of
      the creation and nothing in between spent the pairing. */
  lemma ProvenMakesItsDeviceExactlyWhen(m: Manager, id: string, created: int, between: seq<Event>, device: string,
                                        now: int)
    requires forall i :: 0 <= i < |between| ==>
               NotLaterThan(between[i], now) && (between[i].Create? ==> between[i].id != id)
    ensures var before := Run(Created(m, id, created), between);
            Made(Completed(before, id, Proven(device), now), id) ==
            if now < created + 120_000 && (forall i :: 0 <= i < |between| ==> !Spends(between[i], id))
            then Made(before, id) + [device] else Made(before, id)
  {
    CreatedIsOpenForItsLifetime(m, id, created, now);
    OpenExactlyWhenUnspent(Created(m, id, created), between, id, now);
  }

  class DeviceManager {
    var pairings: map<string, Pairing>
    ghost var made: map<string, seq<string>>

    ghost function State(): Manager
      reads this
    {
      Manager(pairings, made)
    }

    constructor ()
      ensures State() == EMPTY
    {
      pairings, made := map[], map[];
    }

    method PrunePairings(now: int)
      modifies this`pairings
      ensures State() == Pruned(old(State()), now)
    {
      ghost var before := pairings;
      var remaining := pairings.Keys;
      while remaining != {}
        invariant remaining <= before.Keys && made == old(made)
        invariant pairings ==
                  map id | id in before && (id in remaining || (!before[id].used && now < before[id].expiresAt)) ::
                    before[id]
        decreases remaining
      {
        var id :| id in remaining;
        if pairings[id].used || pairings[id].expiresAt <= now {
          pairings := pairings - {id};
        }
        remaining := remaining - {id};
      }
    }

    method CreatePairing(id: string, now: int)
      modifies this
      ensures State() == Created(old(State()), id, now)
    {
      PrunePairings(now);
      pairings := pairings[id := Pairing(now + LIFETIME, false)];
    }

    method CancelPairing(id: string, now: int) returns (deleted: bool)
      modifies this
      ensures State() == Cancelled(old(State()), id, now) && deleted == (id in Pruned(old(State()), now).pairings)
    {
      PrunePairings(now);
      deleted := id in pairings;
      pairings := pairings - {id};
    }

    method CompletePairing(id: string, attempt: Attempt, now: int) returns (device: Option<string>)
      modifies this
      ensures State() == Completed(old(State()), id, attempt, now)
      ensures device.Some? <==> Made(State(), id) != Made(old(State()), id)
    {
      MadeExactlyWhen(State(), id, attempt, now);
      if id !in pairings || pairings[id].used || pairings[id].expiresAt <= now || attempt.BadKey? || attempt.BadProof? {
        return None;
      }
      ghost var before := pairings;
      pairings := pairings[id := pairings[id].(used := true)];
      if attempt.StoreFails? {
        return None;
      }
      made := made[id := (if id in made then made[id] else []) + [attempt.device]];
      pairings := pairings - {id};
      assert pairings == before - {id};
      device := Some(attempt.device);
    }
  }
}
