/** Pending approvals and inputs: an action waits with a resolver and a timer
    until a decision, its timeout, a cancellation or a restart settles it. */
module ActionBroker {
  import opened Keys

  datatype ActionState = Pending | Resolved | Expired

  /** An absent or empty confirmation phrase asks for nothing. */
  datatype Decision = Decision(id: string, scopeOnce: bool, phrase: Option<string>)

  datatype Action = Action(session: string, decisions: seq<Decision>, expiresAt: int, state: ActionState)

  datatype Submission = Submission(
    device: string, key: string, actionId: string, session: string, decisionId: string, phrase: Option<string>)

  datatype Message = Gone | WrongSession | AlreadyHandled | TooLate | NotOffered | PhraseNeeded | Submitted

  /** A saved result; commands of other kinds save theirs without a message. */
  datatype Reply = Reply(ok: bool, message: Option<Message>)

  /** `settled` lists what each result promise was resolved with, `wins` the
      accepted submissions and `born` the actions of this process. */
  datatype Broker = Broker(
    actions: map<string, Action>, resolvers: set<string>, timers: set<string>, results: map<string, Reply>,
    settled: map<string, seq<Option<Decision>>>, wins: map<string, seq<Submission>>, born: set<string>)

  const EMPTY := Broker(map[], {}, {}, map[], map[], map[], {})

  function FirstOnce(decisions: seq<Decision>): (found: Option<Decision>)
    ensures found.Some? <==> exists i :: 0 <= i < |decisions| && decisions[i].scopeOnce
    ensures found.Some? ==> found.value in decisions && found.value.scopeOnce
  {
    if decisions == [] then None else if decisions[0].scopeOnce then Some(decisions[0]) else FirstOnce(decisions[1..])
  }

  function FindDecision(decisions: seq<Decision>, id: string): (found: Option<Decision>)
    ensures found.Some? <==> exists i :: 0 <= i < |decisions| && decisions[i].id == id
    ensures found.Some? ==> found.value in decisions && found.value.id == id
  {
    if decisions == [] then None
    else if decisions[0].id == id then Some(decisions[0]) else FindDecision(decisions[1..], id)
  }

  predicate PhraseMatches(decision: Decision, submission: Submission) {
    decision.phrase.Some? && decision.phrase.value != "" ==> submission.phrase == decision.phrase
  }

  // ---------------------------------------------------------------- operations

  function Settle(b: Broker, id: string, value: Option<Decision>): Broker {
    b.(settled := b.settled[id := (if id in b.settled then b.settled[id] else []) + [value]])
  }

  /** The row keeps everything but its state. */
  function SetState(b: Broker, id: string, state: ActionState): Broker {
    if id in b.actions then b.(actions := b.actions[id := b.actions[id].(state := state)]) else b
  }

  function Disarm(b: Broker, id: string): Broker {
    b.(resolvers := b.resolvers - {id}, timers := b.timers - {id})
  }

  /** `autoAllow` is the project policy's verdict, `sessionKnown` the row's
      foreign key: without it the insert throws. */
  function Created(b: Broker, id: string, session: string, decisions: seq<Decision>, expiresAt: int, autoAllow: bool,
                   sessionKnown: bool): Broker
  {
    if !sessionKnown then b
    else
      var born := b.(born := b.born + {id}, settled := b.settled[id := []], wins := b.wins[id := []]);
      var once := FirstOnce(decisions);
      if autoAllow && once.Some? then
        Settle(born.(actions := b.actions[id := Action(session, decisions, expiresAt, Resolved)]), id, once)
      else born.(actions := b.actions[id := Action(session, decisions, expiresAt, Pending)],
             resolvers := b.resolvers + {id}, timers := b.timers + {id})
  }

  function TimedOut(b: Broker, id: string): Broker {
    if id !in b.timers then b else Settle(SetState(Disarm(b, id), id, Expired), id, None)
  }

  function Abandoned(b: Broker, id: string): Broker {
    if id !in b.resolvers then b else SetState(Settle(Disarm(b, id), id, None), id, Expired)
  }

  /** What a submission is answered on its first delivery. */
  function Verdict(b: Broker, submission: Submission, now: int): Message {
    if submission.actionId !in b.actions || submission.actionId !in b.resolvers then Gone
    else
      var action := b.actions[submission.actionId];
      var decision := FindDecision(action.decisions, submission.decisionId);
      if action.session != submission.session then WrongSession
      else if !action.state.Pending? then AlreadyHandled
      else if action.expiresAt <= now then TooLate
      else if decision.None? then NotOffered
      else if !PhraseMatches(decision.value, submission) then PhraseNeeded
      else Submitted
  }

  function Won(b: Broker, submission: Submission): Broker
    requires submission.actionId in b.actions
  {
    var id := submission.actionId;
    var decision := FindDecision(b.actions[id].decisions, submission.decisionId);
    var settled := Settle(SetState(Disarm(b, id), id, Resolved), id, decision);
    settled.(wins := b.wins[id := (if id in b.wins then b.wins[id] else []) + [submission]])
  }

  function Saved(b: Broker, key: string, reply: Reply): Broker {
    if key in b.results then b else b.(results := b.results[key := reply])
  }

  function KeyOf(submission: Submission): string {
    StorageKey(submission.device, submission.key)
  }

  function Decided(b: Broker, submission: Submission, now: int): Broker {
    if KeyOf(submission) in b.results then b
    else
      var verdict := Verdict(b, submission, now);
      Saved(if verdict.Submitted? then Won(b, submission)
            else b, KeyOf(submission), Reply(verdict.Submitted?, Some(verdict)))
  }

  function ReplyTo(b: Broker, submission: Submission, now: int): Reply {
    if KeyOf(submission) in b.results then b.results[KeyOf(submission)]
    else
      var verdict := Verdict(b, submission, now);
      Reply(verdict.Submitted?, Some(verdict))
  }

  /** Every waiting promise resolves with nothing. */
  function CancelledAll(b: Broker): Broker {
    b.(resolvers := {}, timers := b.timers - b.resolvers,
    actions := map id | id in b.actions ::
                 if id in b.resolvers then b.actions[id].(state := Expired) else b.actions[id],
    settled := map id | id in b.settled.Keys + b.resolvers ::
      (if id in b.settled then b.settled[id] else []) + if id in b.resolvers then [None] else [])
  }

  /** A new process has no resolvers, and its store expires what was pending. */
  function Restarted(b: Broker): Broker {
    b.(resolvers := {}, timers := {}, born := {},
    actions := map id | id in b.actions ::
                 if b.actions[id].state.Pending? then b.actions[id].(state := Expired) else b.actions[id])
  }

  datatype Event =
    | Create(id: string, session: string, decisions: seq<Decision>, expiresAt: int, autoAllow: bool, sessionKnown: bool)
    | Decide(submission: Submission, now: int)
    | Timeout(timed: string)
    | Expire(abandoned: string)
    | CancelAll
    | OtherCommand(key: string)
    | Restart

  function Step(b: Broker, e: Event): Broker {
    match e
    case Create(id, session, decisions, expiresAt, autoAllow, sessionKnown) =>
      Created(b, id, session, decisions, expiresAt, autoAllow, sessionKnown)
    case Decide(submission, now) => Decided(b, submission, now)
    case Timeout(id) => TimedOut(b, id)
    case Expire(id) => Abandoned(b, id)
    case CancelAll => CancelledAll(b)
    case OtherCommand(key) => Saved(b, key, Reply(true, None))
    case Restart => Restarted(b)
  }

  function Run(b: Broker, events: seq<Event>): Broker
    decreases |events|
  {
    if events == [] then b else Run(Step(b, events[0]), events[1..])
  }

  /** Action ids are fresh UUIDs. */
  predicate Possible(b: Broker, e: Event) {
    e.Create? ==> e.id !in b.actions && e.id !in b.settled
  }

  ghost predicate PossibleRun(b: Broker, events: seq<Event>)
    decreases |events|
  {
    events == [] || (Possible(b, events[0]) && PossibleRun(Step(b, events[0]), events[1..]))
  }

  // ----------------------------------------------------------------- invariant

  /** A decision an accepted submission may deliver. */
  predicate Delivers(action: Action, submission: Submission, decision: Decision) {
    && FindDecision(action.decisions, submission.decisionId) == Some(decision)
    && submission.session == action.session
    && (decision.phrase.None? || decision.phrase.value == "" || submission.phrase == decision.phrase)
  }

  predicate PromiseOk(id: string, action: Action, waiting: bool, born: bool, settled: seq<Option<Decision>>,
                      wins: seq<Submission>)
  {
    && (action.state.Pending? <==> waiting)
    && (waiting ==> born && settled == [] && wins == [])
    && |settled| <= 1 && |wins| <= 1
    && (born && !waiting ==> |settled| == 1)
    && (action.state.Resolved? ==> |settled| == 1 && settled[0].Some?)
    && (settled != [] && settled[0].Some? ==> action.state.Resolved? && settled[0].value in action.decisions)
    && (wins != [] ==>
          settled != [] && settled[0].Some? && wins[0].actionId == id && Delivers(action, wins[0], settled[0].value))
    && (wins == [] && settled != [] && settled[0].Some? ==> settled[0] == FirstOnce(action.decisions))
  }

  ghost predicate ActionOk(b: Broker, id: string) {
    && id in b.actions && id in b.settled && id in b.wins
    && PromiseOk(id, b.actions[id], id in b.resolvers, id in b.born, b.settled[id], b.wins[id])
  }

  ghost predicate Valid(b: Broker) {
    && b.timers == b.resolvers && b.resolvers <= b.actions.Keys && b.born <= b.actions.Keys
    && b.actions.Keys == b.settled.Keys == b.wins.Keys
    && forall id :: id in b.actions ==> ActionOk(b, id)
  }

  /** What a step that concerns one action must leave alone. */
  ghost predicate OnlyTouches(b: Broker, d: Broker, id: string) {
    && d.actions.Keys == b.actions.Keys && d.settled.Keys == b.settled.Keys && d.wins.Keys == b.wins.Keys
    && d.timers == d.resolvers && d.resolvers <= b.resolvers && d.born == b.born
    && forall x :: x in b.actions && x != id ==>
      && d.actions[x] == b.actions[x] && (x in d.settled && x in b.settled ==> d.settled[x] == b.settled[x])
      && (x in d.wins && x in b.wins ==> d.wins[x] == b.wins[x]) && (x in d.resolvers <==> x in b.resolvers)
  }

  lemma SamePromise(b: Broker, d: Broker, id: string)
    requires ActionOk(b, id) && id in d.actions && d.actions[id] == b.actions[id]
    requires id in d.settled && d.settled[id] == b.settled[id] && id in d.wins && d.wins[id] == b.wins[id]
    requires (id in d.resolvers <==> id in b.resolvers) && (id in d.born <==> id in b.born)
    ensures ActionOk(d, id)
  {
  }

  lemma TouchKeepsValid(b: Broker, d: Broker, id: string)
    requires Valid(b) && OnlyTouches(b, d, id) && (id in b.actions ==> ActionOk(d, id))
    ensures Valid(d)
  {
    forall x | x in d.actions ensures ActionOk(d, x) {
      assert ActionOk(b, x);
    }
  }

  lemma NewPromiseIsOk(b: Broker, id: string, session: string, decisions: seq<Decision>, expiresAt: int,
                       autoAllow: bool)
    requires Valid(b) && id !in b.actions
    ensures ActionOk(Created(b, id, session, decisions, expiresAt, autoAllow, true), id)
  {
    var d, once := Created(b, id, session, decisions, expiresAt, autoAllow, true), FirstOnce(decisions);
    assert d.settled[id] == if autoAllow && once.Some? then [once] else [];
    assert d.actions[id] ==
           Action(session, decisions, expiresAt, if autoAllow && once.Some? then Resolved else Pending);
    assert d.wins[id] == [];
  }

  lemma CreatedKeepsValid(b: Broker, id: string, session: string, decisions: seq<Decision>, expiresAt: int,
                          autoAllow: bool, sessionKnown: bool)
    requires Valid(b) && id !in b.actions
    ensures Valid(Created(b, id, session, decisions, expiresAt, autoAllow, sessionKnown))
  {
    if sessionKnown {
      var d := Created(b, id, session, decisions, expiresAt, autoAllow, true);
      NewPromiseIsOk(b, id, session, decisions, expiresAt, autoAllow);
      forall x | x in d.actions && x != id ensures ActionOk(d, x) {
        assert ActionOk(b, x);
        SamePromise(b, d, x);
      }
    }
  }

  /** An action that waits and is settled with nothing. */
  lemma ExpiredPromiseIsOk(b: Broker, d: Broker, id: string)
    requires ActionOk(b, id) && id in b.resolvers && id !in d.resolvers && id in d.actions && id in d.settled &&
             id in d.wins
    requires d.actions[id] == b.actions[id].(state := Expired) && d.settled[id] == b.settled[id] + [None] &&
             d.wins[id] == b.wins[id]
    requires id in d.born
    ensures ActionOk(d, id)
  {
    assert d.settled[id] == [None];
  }

  lemma TimedOutKeepsValid(b: Broker, id: string)
    requires Valid(b)
    ensures Valid(TimedOut(b, id))
  {
    if id in b.timers {
      assert ActionOk(b, id);
      ExpiredPromiseIsOk(b, TimedOut(b, id), id);
      TouchKeepsValid(b, TimedOut(b, id), id);
    }
  }

  lemma AbandonedKeepsValid(b: Broker, id: string)
    requires Valid(b)
    ensures Valid(Abandoned(b, id))
  {
    if id in b.resolvers {
      assert ActionOk(b, id);
      ExpiredPromiseIsOk(b, Abandoned(b, id), id);
      TouchKeepsValid(b, Abandoned(b, id), id);
    }
  }

  lemma WonPromiseIsOk(b: Broker, submission: Submission, now: int)
    requires Valid(b) && Verdict(b, submission, now).Submitted?
    ensures ActionOk(Won(b, submission), submission.actionId)
  {
    var id, d := submission.actionId, Won(b, submission);
    assert ActionOk(b, id);
    var decision := FindDecision(b.actions[id].decisions, submission.decisionId);
    assert d.settled[id] == [decision] && d.wins[id] == [submission] &&
           d.actions[id] == b.actions[id].(state := Resolved);
    assert Delivers(d.actions[id], submission, decision.value);
  }

  lemma WonKeepsValid(b: Broker, submission: Submission, now: int)
    requires Valid(b) && Verdict(b, submission, now).Submitted?
    ensures Valid(Won(b, submission))
  {
    WonPromiseIsOk(b, submission, now);
    TouchKeepsValid(b, Won(b, submission), submission.actionId);
  }

  lemma SavedKeepsValid(b: Broker, key: string, reply: Reply)
    requires Valid(b)
    ensures Valid(Saved(b, key, reply))
  {
    TouchKeepsValid(b, Saved(b, key, reply), "");
  }

  lemma DecidedKeepsValid(b: Broker, submission: Submission, now: int)
    requires Valid(b)
    ensures Valid(Decided(b, submission, now))
  {
    var verdict := Verdict(b, submission, now);
    var reply := Reply(verdict.Submitted?, Some(verdict));
    if KeyOf(submission) !in b.results {
      if verdict.Submitted? {
        WonKeepsValid(b, submission, now);
        SavedKeepsValid(Won(b, submission), KeyOf(submission), reply);
      } else {
        SavedKeepsValid(b, KeyOf(submission), reply);
      }
    }
  }

  lemma CancelledAllKeepsValid(b: Broker)
    requires Valid(b)
    ensures Valid(CancelledAll(b))
  {
    var d := CancelledAll(b);
    assert d.settled.Keys == b.settled.Keys;
    forall x | x in d.actions ensures ActionOk(d, x) {
      assert ActionOk(b, x);
      if x in b.resolvers {
        ExpiredPromiseIsOk(b, d, x);
      } else {
        assert d.settled[x] == b.settled[x] + [] == b.settled[x];
        SamePromise(b, d, x);
      }
    }
  }

  lemma RestartedKeepsValid(b: Broker)
    requires Valid(b)
    ensures Valid(Restarted(b))
  {
    var d := Restarted(b);
    forall x | x in d.actions ensures ActionOk(d, x) {
      assert ActionOk(b, x);
    }
  }

  lemma StepKeepsValid(b: Broker, e: Event)
    requires Valid(b) && Possible(b, e)
    ensures Valid(Step(b, e))
  {
    match e
    case Create(id, session, decisions, expiresAt, autoAllow, sessionKnown) =>
      CreatedKeepsValid(b, id, session, decisions, expiresAt, autoAllow, sessionKnown);
    case Decide(submission, now) => DecidedKeepsValid(b, submission, now);
    case Timeout(id) => TimedOutKeepsValid(b, id);
    case Expire(id) => AbandonedKeepsValid(b, id);
    case CancelAll => CancelledAllKeepsValid(b);
    case OtherCommand(key) => SavedKeepsValid(b, key, Reply(true, None));
    case Restart => RestartedKeepsValid(b);
  }

  lemma {:induction false} RunKeepsValid(b: Broker, events: seq<Event>)
    requires Valid(b) && PossibleRun(b, events)
    ensures Valid(Run(b, events))
    decreases |events|
  {
    if events != [] {
      StepKeepsValid(b, events[0]);
      RunKeepsValid(Step(b, events[0]), events[1..]);
    }
  }

  // -------------------------------------------------------------- main results

  /** In every interleaving, an action is pending exactly while it has a resolver,
      and a timer exactly then too. */
  lemma PendingMeansWaiting(events: seq<Event>, id: string)
    requires PossibleRun(EMPTY, events)
    ensures var b := Run(EMPTY, events);
            && (id in b.actions && b.actions[id].state.Pending? <==> id in b.resolvers)
            && (id in b.timers <==> id in b.resolvers)
  {
    RunKeepsValid(EMPTY, events);
    assert id in Run(EMPTY, events).actions ==> ActionOk(Run(EMPTY, events), id);
  }

  /** A promise settles at most once; within the process that made it, it has
      settled exactly when nothing waits for it any more. At most one submission
      wins per action, over all devices and keys. */
  lemma SettlesOnce(events: seq<Event>, id: string)
    requires PossibleRun(EMPTY, events) && id in Run(EMPTY, events).actions
    ensures var b := Run(EMPTY, events);
            && id in b.settled && id in b.wins && |b.settled[id]| <= 1 && |b.wins[id]| <= 1
            && (id in b.born ==> (|b.settled[id]| == 1 <==> id !in b.resolvers))
  {
    RunKeepsValid(EMPTY, events);
    assert ActionOk(Run(EMPTY, events), id);
  }

  /** A delivered decision is one the action offered: the accepted submission's,
      with its session and phrase matched, or else the first that allows once. */
  lemma DeliveredWasOffered(events: seq<Event>, id: string)
    requires PossibleRun(EMPTY, events) && id in Run(EMPTY, events).actions
    ensures var b := Run(EMPTY, events);
            && id in b.settled && id in b.wins
            && (b.settled[id] != [] && b.settled[id][0].Some? ==>
                  && b.actions[id].state.Resolved? && b.settled[id][0].value in b.actions[id].decisions
                  && if b.wins[id] == [] then b.settled[id][0] == FirstOnce(b.actions[id].decisions)
                     else Delivers(b.actions[id], b.wins[id][0], b.settled[id][0].value))
  {
    RunKeepsValid(EMPTY, events);
    assert ActionOk(Run(EMPTY, events), id);
  }

  /** A submission with a new key wins exactly when the action waits in this
      process, in the same session, unexpired, and the phrase of the first
      offered decision of that id matches. */
  lemma WinsExactlyWhen(b: Broker, submission: Submission, now: int)
    requires Valid(b) && KeyOf(submission) !in b.results
    ensures ReplyTo(b, submission, now).ok <==>
            && submission.actionId in b.resolvers
            && var action := b.actions[submission.actionId];
               && now < action.expiresAt
               && exists decision :: decision in action.decisions && Delivers(action, submission, decision)
  {
    if submission.actionId in b.resolvers {
      var action := b.actions[submission.actionId];
      assert ActionOk(b, submission.actionId);
      var found := FindDecision(action.decisions, submission.decisionId);
      if found.Some? && action.session == submission.session && PhraseMatches(found.value, submission) {
        assert Delivers(action, submission, found.value);
      }
    }
  }

  /** An action that no longer waits, its promise settled once, with `value`. */
  ghost predicate SettledWith(b: Broker, d: Broker, id: string, state: ActionState, value: Option<Decision>)
    requires id in b.actions
  {
    && id in d.actions && d.actions[id] == b.actions[id].(state := state)
    && id !in d.resolvers && id !in d.timers && id in d.settled && d.settled[id] == [value]
  }

  /** Nothing about an action has changed. */
  ghost predicate SameAction(b: Broker, d: Broker, id: string) {
    && (id in d.actions <==> id in b.actions) && (id in b.actions ==> d.actions[id] == b.actions[id])
    && (id in d.resolvers <==> id in b.resolvers) && (id in d.timers <==> id in b.timers)
    && (id in d.settled <==> id in b.settled) && (id in b.settled ==> d.settled[id] == b.settled[id])
    && (id in d.wins <==> id in b.wins) && (id in b.wins ==> d.wins[id] == b.wins[id])
  }

  /** A first delivery does what its reply says. Told ok, the action is resolved and
      its promise delivers the named decision, which only this submission has won;
      told anything else, no action has changed. The reply is saved either way. */
  lemma DecideDoesWhatItReplies(b: Broker, submission: Submission, now: int)
    requires Valid(b) && KeyOf(submission) !in b.results
    ensures var d, reply := Step(b, Decide(submission, now)), ReplyTo(b, submission, now);
            && d.results == b.results[KeyOf(submission) := reply]
            && (forall id :: id != submission.actionId || !reply.ok ==> SameAction(b, d, id))
            && (reply.ok ==>
                  && submission.actionId in b.resolvers
                  && exists decision :: SettledWith(b, d, submission.actionId, Resolved, Some(decision)) &&
                       decision in b.actions[submission.actionId].decisions && decision.id == submission.decisionId)
            && (reply.ok ==> submission.actionId in d.wins && d.wins[submission.actionId] == [submission])
  {
    if ReplyTo(b, submission, now).ok {
      WinnerIsDelivered(b, submission, now);
      var decision := FindDecision(b.actions[submission.actionId].decisions, submission.decisionId);
      assert SettledWith(b, Step(b, Decide(submission, now)), submission.actionId, Resolved, decision);
    }
  }

  lemma WinnerIsDelivered(b: Broker, submission: Submission, now: int)
    requires Valid(b) && Verdict(b, submission, now).Submitted?
    ensures var d, id := Won(b, submission), submission.actionId;
            && id in b.resolvers && d.results == b.results && (forall x :: x != id ==> SameAction(b, d, x))
            && SettledWith(b, d, id, Resolved, FindDecision(b.actions[id].decisions, submission.decisionId))
            && id in d.wins && d.wins[id] == [submission]
  {
    assert ActionOk(b, submission.actionId);
  }

  /** A timeout or an expiry of a waiting action settles it with nothing; one that
      does not wait is left alone, and so is every other. */
  lemma UnansweredSettlesWithNothing(b: Broker, e: Event, id: string, other: string)
    requires Valid(b) && (e == Timeout(id) || e == Expire(id))
    ensures id in b.resolvers ==> id in b.actions && SettledWith(b, Step(b, e), id, Expired, None)
    ensures other != id || id !in b.resolvers ==> SameAction(b, Step(b, e), other)
    ensures Step(b, e).results == b.results
  {
    if id in b.resolvers {
      assert ActionOk(b, id);
    }
  }

  /** A cancellation settles every waiting action with nothing, and no other. */
  lemma CancelSettlesExactlyTheWaiting(b: Broker, id: string)
    requires Valid(b)
    ensures var d := Step(b, CancelAll);
            && d.resolvers == {} && d.timers == {} && d.results == b.results
            && if id in b.resolvers then id in b.actions && SettledWith(b, d, id, Expired, None)
               else SameAction(b, d, id)
  {
    if id in b.resolvers {
      assert ActionOk(b, id);
    } else if id in b.settled {
      assert CancelledAll(b).settled[id] == b.settled[id] + [];
    }
  }

  /** A new action waits with a resolver and a timer, unless the policy allows it and
      it offers a decision for once: then its promise delivers the first of those. */
  lemma NewActionWaitsOrIsAllowed(b: Broker, e: Event)
    requires Valid(b) && e.Create? && Possible(b, e) && e.sessionKnown
    ensures var d, once := Step(b, e), FirstOnce(e.decisions);
            && e.id in d.actions && d.actions[e.id].session == e.session && d.actions[e.id].decisions == e.decisions
            && d.actions[e.id].expiresAt == e.expiresAt
            && if e.autoAllow && once.Some?
               then d.actions[e.id].state.Resolved? && e.id !in d.resolvers && d.settled[e.id] == [once]
               else d.actions[e.id].state.Pending? && e.id in d.resolvers && e.id in d.timers && d.settled[e.id] == []
  {
    NewPromiseIsOk(b, e.id, e.session, e.decisions, e.expiresAt, e.autoAllow);
  }

  /** A submission for the action is told ok on its first delivery. */
  predicate FirstWin(b: Broker, e: Event, id: string) {
    e.Decide? && e.submission.actionId == id && KeyOf(e.submission) !in b.results && ReplyTo(b, e.submission, e.now).ok
  }

  function Winner(b: Broker, e: Event, id: string): seq<Submission> {
    if FirstWin(b, e, id) then [e.submission] else []
  }

  function Winners(b: Broker, events: seq<Event>, id: string): seq<Submission>
    decreases |events|
  {
    if events == [] then []
    else Winner(b, events[0], id) + Winners(Step(b, events[0]), events[1..], id)
  }

  function WinsOf(b: Broker, id: string): seq<Submission> {
    if id in b.wins then b.wins[id] else []
  }

  lemma DecideRecordsWinner(b: Broker, e: Event, id: string)
    requires Valid(b) && e.Decide? && KeyOf(e.submission) !in b.results
    ensures WinsOf(Step(b, e), id) == WinsOf(b, id) + Winner(b, e, id)
  {
    DecideDoesWhatItReplies(b, e.submission, e.now);
    if FirstWin(b, e, id) {
      assert ActionOk(b, id);
    } else {
      assert SameAction(b, Step(b, e), id);
    }
  }

  lemma StepRecordsWinner(b: Broker, e: Event, id: string)
    requires Valid(b) && Possible(b, e)
    ensures WinsOf(Step(b, e), id) == WinsOf(b, id) + Winner(b, e, id)
  {
    if e.Decide? && KeyOf(e.submission) !in b.results {
      DecideRecordsWinner(b, e, id);
    }
  }

  lemma WinnersUnfold(b: Broker, events: seq<Event>, id: string) returns (next: Broker, rest: seq<Submission>)
    requires Valid(b) && PossibleRun(b, events) && events != []
    ensures Valid(next) && PossibleRun(next, events[1..]) && Run(b, events) == Run(next, events[1..])
    ensures rest == Winners(next, events[1..], id) && Winners(b, events, id) == Winner(b, events[0], id) + rest
    ensures WinsOf(next, id) == WinsOf(b, id) + Winner(b, events[0], id)
  {
    next := Step(b, events[0]);
    rest := Winners(next, events[1..], id);
    StepRecordsWinner(b, events[0], id);
    StepKeepsValid(b, events[0]);
  }

  lemma Assoc<T>(x: seq<T>, y: seq<T>, z: seq<T>)
    ensures (x + y) + z == x + (y + z)
  {
  }

  lemma {:induction false} WinnersAreWins(b: Broker, events: seq<Event>, id: string)
    requires Valid(b) && PossibleRun(b, events)
    ensures WinsOf(Run(b, events), id) == WinsOf(b, id) + Winners(b, events, id)
    decreases |events|
  {
    if events != [] {
      var next, rest := WinnersUnfold(b, events, id);
      WinnersAreWins(next, events[1..], id);
      var x, y := WinsOf(b, id), Winner(b, events[0], id);
      assert WinsOf(next, id) == x + y;
      assert WinsOf(Run(b, events), id) == (x + y) + rest;
      assert Winners(b, events, id) == y + rest;
      Assoc(x, y, rest);
    } else {
      assert Winners(b, events, id) == [];
      assert WinsOf(b, id) + [] == WinsOf(b, id);
    }
  }

  /** Over every run at most one submission per action is told ok when it first
      comes, over all devices and keys, and it is the one whose decision is delivered. */
  lemma OneOkReplyPerAction(events: seq<Event>, id: string)
    requires PossibleRun(EMPTY, events)
    ensures |Winners(EMPTY, events, id)| <= 1
    ensures Winners(EMPTY, events, id) != [] ==>
              var b := Run(EMPTY, events);
              && id in b.actions && b.actions[id].state.Resolved? && id in b.settled && |b.settled[id]| == 1
              && b.settled[id][0].Some?
              && Delivers(b.actions[id], Winners(EMPTY, events, id)[0], b.settled[id][0].value)
  {
    RunKeepsValid(EMPTY, events);
    WinnersAreWins(EMPTY, events, id);
    assert id in Run(EMPTY, events).actions ==> ActionOk(Run(EMPTY, events), id);
  }

  lemma UnknownSessionMakesNoAction(b: Broker, e: Event)
    requires e.Create? && !e.sessionKnown
    ensures Step(b, e) == b
  {
  }

  /** A first reply names the first check that failed, in this order: the action
      waits, it is of the session, it has not expired, it offers the decision, and
      the phrase is the one asked for. */
  lemma ReplyNamesTheFirstCheck(b: Broker, submission: Submission, now: int)
    requires Valid(b) && KeyOf(submission) !in b.results
    ensures var waits := submission.actionId in b.resolvers;
            var ours := waits && b.actions[submission.actionId].session == submission.session;
            var live := ours && now < b.actions[submission.actionId].expiresAt;
            var offered := live &&
                           exists d :: d in b.actions[submission.actionId].decisions && d.id == submission.decisionId;
            var reply := ReplyTo(b, submission, now);
            && (reply.message == Some(Gone) <==> !waits) && (reply.message == Some(WrongSession) <==> waits && !ours)
            && (reply.message == Some(TooLate) <==> ours && !live)
            && (reply.message == Some(NotOffered) <==> live && !offered)
            && (reply.message == Some(PhraseNeeded) <==> offered && !reply.ok)
            && (reply.message == Some(Submitted) <==> reply.ok)
  {
    if submission.actionId in b.resolvers {
      assert ActionOk(b, submission.actionId);
      var decisions := b.actions[submission.actionId].decisions;
      assert FindDecision(decisions, submission.decisionId).None? ==>
               forall d :: d in decisions ==> d.id != submission.decisionId;
    }
  }

  predicate Terminal(b: Broker, id: string) {
    id in b.actions && !b.actions[id].state.Pending? && id in b.settled
  }

  predicate TerminalKept(b: Broker, d: Broker, id: string) {
    Terminal(b, id) && Terminal(d, id) && d.actions[id] == b.actions[id] && d.settled[id] == b.settled[id]
  }

  lemma DecidedKeepsTerminal(b: Broker, submission: Submission, now: int, id: string)
    requires Valid(b) && Terminal(b, id)
    ensures TerminalKept(b, Decided(b, submission, now), id)
  {
    assert ActionOk(b, id);
  }

  lemma CancelledAllKeepsTerminal(b: Broker, id: string)
    requires Valid(b) && Terminal(b, id)
    ensures TerminalKept(b, CancelledAll(b), id)
  {
    assert ActionOk(b, id);
    assert CancelledAll(b).settled[id] == b.settled[id] + [];
  }

  lemma EndingKeepsTerminal(b: Broker, other: string, id: string)
    requires Valid(b) && Terminal(b, id)
    ensures TerminalKept(b, TimedOut(b, other), id) && TerminalKept(b, Abandoned(b, other), id)
  {
    assert ActionOk(b, id);
  }

  lemma StepKeepsTerminal(b: Broker, e: Event, id: string)
    requires Valid(b) && Possible(b, e) && Terminal(b, id)
    ensures TerminalKept(b, Step(b, e), id)
  {
    match e
    case Decide(submission, now) => DecidedKeepsTerminal(b, submission, now, id);
    case CancelAll => CancelledAllKeepsTerminal(b, id);
    case Timeout(other) => EndingKeepsTerminal(b, other, id);
    case Expire(other) => EndingKeepsTerminal(b, other, id);
    case _ =>
  }

  /** Resolved and expired are final: neither the row nor the promise changes. */
  lemma {:induction false} TerminalIsForever(b: Broker, events: seq<Event>, id: string)
    requires Valid(b) && PossibleRun(b, events) && Terminal(b, id)
    ensures TerminalKept(b, Run(b, events), id)
    decreases |events|
  {
    if events != [] {
      StepKeepsValid(b, events[0]);
      StepKeepsTerminal(b, events[0], id);
      TerminalIsForever(Step(b, events[0]), events[1..], id);
    }
  }

  /** A saved result is never replaced. */
  lemma {:induction false} ResultsAreKept(b: Broker, events: seq<Event>, key: string)
    requires key in b.results
    ensures key in Run(b, events).results && Run(b, events).results[key] == b.results[key]
    decreases |events|
  {
    if events != [] {
      StepKeepsResult(b, events[0], key);
      ResultsAreKept(Step(b, events[0]), events[1..], key);
    }
  }

  lemma StepKeepsResult(b: Broker, e: Event, key: string)
    requires key in b.results
    ensures key in Step(b, e).results && Step(b, e).results[key] == b.results[key]
  {
  }

  /** Whatever happens in between, restarts included, redelivering a submission's
      key gets the first reply again and changes nothing. */
  lemma ReplayReturnsFirstResult(b: Broker, submission: Submission, now: int, events: seq<Event>, again: Submission,
                                 later: int)
    requires again.device == submission.device && again.key == submission.key
    ensures var after := Run(Decided(b, submission, now), events);
            ReplyTo(after, again, later) == ReplyTo(b, submission, now) && Decided(after, again, later) == after
  {
    ResultsAreKept(Decided(b, submission, now), events, KeyOf(submission));
  }

  // ---------------------------------------------------------------- the service

  /** `CancelledAll` for the resolvers in `done` only. */
  function Cancelled(b: Broker, done: set<string>): Broker {
    b.(timers := b.timers - done,
    actions := map id | id in b.actions :: if id in done then b.actions[id].(state := Expired) else b.actions[id],
    settled := map id | id in b.settled.Keys + done ::
      (if id in b.settled then b.settled[id] else []) + if id in done then [None] else [])
  }

  lemma NothingCancelled(b: Broker)
    ensures Cancelled(b, {}) == b
  {
    assert forall id :: id in b.settled ==> b.settled[id] + [] == b.settled[id];
    assert Cancelled(b, {}).actions == b.actions && Cancelled(b, {}).settled == b.settled;
  }

  lemma EverythingCancelled(b: Broker)
    ensures Cancelled(b, b.resolvers).(resolvers := {}) == CancelledAll(b)
  {
    assert Cancelled(b, b.resolvers).actions == CancelledAll(b).actions;
    assert Cancelled(b, b.resolvers).settled == CancelledAll(b).settled;
  }

  function CancelledNext(c: Broker, id: string): Broker {
    SetState(Settle(c.(timers := c.timers - {id}), id, None), id, Expired)
  }

  predicate OneMore(after: set<string> -> Broker, done: set<string>, id: string) {
    CancelledNext(after(done), id) == after(done + {id})
  }

  lemma CancelledOneMore(b: Broker, done: set<string>, id: string)
    requires id !in done
    ensures CancelledNext(Cancelled(b, done), id) == Cancelled(b, done + {id})
  {
    var c, d, e := Cancelled(b, done), Cancelled(b, done + {id}), CancelledNext(Cancelled(b, done), id);
    assert e.timers == d.timers;
    assert e.actions == d.actions;
    assert e.settled.Keys == d.settled.Keys;
    forall x | x in d.settled ensures e.settled[x] == d.settled[x] {
      assert x != id ==> e.settled[x] == c.settled[x];
    }
    assert e.settled == d.settled;
  }

  /** `settled`, `wins` and `born` exist for the specification only. */
  class ActionBroker {
    var actions: map<string, Action>
    var resolvers: set<string>
    var timers: set<string>
    var idempotency: map<string, Reply>
    ghost var settled: map<string, seq<Option<Decision>>>
    ghost var wins: map<string, seq<Submission>>
    ghost var born: set<string>

    ghost function State(): Broker
      reads this
    {
      Broker(actions, resolvers, timers, idempotency, settled, wins, born)
    }

    constructor ()
      ensures State() == EMPTY
    {
      actions, resolvers, timers, idempotency, settled, wins, born := map[], {}, {}, map[], map[], map[], {};
    }

    ghost method Resolve(id: string, value: Option<Decision>)
      modifies this`settled
      ensures State() == Settle(old(State()), id, value)
    {
      settled := settled[id := (if id in settled then settled[id] else []) + [value]];
    }

    method ClearResolver(id: string)
      modifies this
      ensures State() == Disarm(old(State()), id)
    {
      timers := timers - {id};
      resolvers := resolvers - {id};
    }

    method StoreState(id: string, state: ActionState)
      modifies this`actions
      ensures State() == SetState(old(State()), id, state)
    {
      if id in actions {
        actions := actions[id := actions[id].(state := state)];
      }
    }

    method Create(id: string, session: string, decisions: seq<Decision>, expiresAt: int, autoAllow: bool,
                  sessionKnown: bool)
      modifies this
      ensures State() == Created(old(State()), id, session, decisions, expiresAt, autoAllow, sessionKnown)
    {
      if !sessionKnown {
        return;
      }
      born, settled, wins := born + {id}, settled[id := []], wins[id := []];
      var allow := FirstOnce(decisions);
      if autoAllow && allow.Some? {
        actions := actions[id := Action(session, decisions, expiresAt, Pending)];
        StoreState(id, Resolved);
        Resolve(id, allow);
        return;
      }
      actions := actions[id := Action(session, decisions, expiresAt, Pending)];
      timers := timers + {id};
      resolvers := resolvers + {id};
    }

    method OnTimeout(id: string)
      modifies this
      ensures State() == TimedOut(old(State()), id)
    {
      if id in timers {
        ClearResolver(id);
        StoreState(id, Expired);
        Resolve(id, None);
      }
    }

    method SaveResult(submission: Submission, verdict: Message) returns (reply: Reply)
      modifies this`idempotency
      ensures reply == Reply(verdict.Submitted?, Some(verdict)) &&
              State() == Saved(old(State()), KeyOf(submission), reply)
    {
      reply := Reply(verdict.Submitted?, Some(verdict));
      if KeyOf(submission) !in idempotency {
        idempotency := idempotency[KeyOf(submission) := reply];
      }
    }

    /** The checks of a first delivery, in the order the source makes them. */
    method Check(submission: Submission, now: int) returns (verdict: Message)
      ensures verdict == Verdict(State(), submission, now)
    {
      if submission.actionId !in actions || submission.actionId !in resolvers {
        return Gone;
      }
      var action := actions[submission.actionId];
      if action.session != submission.session {
        return WrongSession;
      }
      if !action.state.Pending? {
        return AlreadyHandled;
      }
      if action.expiresAt <= now {
        return TooLate;
      }
      var decision := FindDecision(action.decisions, submission.decisionId);
      if decision.None? {
        return NotOffered;
      }
      if decision.value.phrase.Some? && decision.value.phrase.value != "" &&
         decision.value.phrase != submission.phrase {
        return PhraseNeeded;
      }
      verdict := Submitted;
    }

    method Decide(submission: Submission, now: int) returns (reply: Reply)
      modifies this
      ensures State() == Decided(old(State()), submission, now) && reply == ReplyTo(old(State()), submission, now)
    {
      if KeyOf(submission) in idempotency {
        return idempotency[KeyOf(submission)];
      }
      var verdict := Check(submission, now);
      if verdict.Submitted? {
        var id := submission.actionId;
        var decision := FindDecision(actions[id].decisions, submission.decisionId);
        ClearResolver(id);
        StoreState(id, Resolved);
        Resolve(id, decision);
        wins := wins[id := (if id in wins then wins[id] else []) + [submission]];
      }
      reply := SaveResult(submission, verdict);
    }

    method Expire(id: string)
      modifies this
      ensures State() == Abandoned(old(State()), id)
    {
      if id in resolvers {
        ClearResolver(id);
        Resolve(id, None);
        StoreState(id, ActionState.Expired);
      }
    }

    method CancelOne(id: string)
      modifies this
      ensures State() == CancelledNext(old(State()), id)
    {
      timers := timers - {id};
      Resolve(id, None);
      StoreState(id, ActionState.Expired);
    }

    /** `after` gives the state once a given set of resolvers is cancelled. */
    method CancelEach(ghost after: set<string> -> Broker)
      requires State() == after({})
      requires forall done, id {:trigger OneMore(after, done, id)} :: id !in done ==> OneMore(after, done, id)
      modifies this
      ensures State() == after(old(resolvers))
    {
      ghost var done: set<string>, all := {}, resolvers;
      var remaining := resolvers;
      while remaining != {}
        invariant done <= all && remaining == all - done
        invariant State() == after(done)
        decreases remaining
      {
        var id :| id in remaining;
        CancelOne(id);
        assert OneMore(after, done, id);
        remaining, done := remaining - {id}, done + {id};
      }
      assert done == all;
    }

    method CancelAll()
      modifies this
      ensures State() == CancelledAll(old(State()))
    {
      ghost var before := State();
      NothingCancelled(before);
      EverythingCancelled(before);
      ghost var after := done => Cancelled(before, done);
      forall done, id | id !in done ensures OneMore(after, done, id) {
        CancelledOneMore(before, done, id);
      }
      CancelEach(after);
      resolvers := {};
    }

    /** A restart: the database survives, the process does not. */
    method Restart()
      modifies this
      ensures State() == Restarted(old(State()))
    {
      resolvers, timers, born := {}, {}, {};
      actions := map id | id in actions ::
                   if actions[id].state.Pending? then actions[id].(state := ActionState.Expired) else actions[id];
    }
  }
}
