/** Commands that are delivered at least once: feed dismissals, task preferences
    and decisions share one table of results, keyed by device and key. */
module Idempotency {
  import opened Keys
  import Broker = ActionBroker

  datatype Preference = Preference(pinnedAt: Option<int>, archivedAt: Option<int>)

  /** What foreign keys refer to. */
  datatype Known = Known(devices: set<string>, sessions: set<string>)

  /** The table of results is the one the broker's state carries. */
  datatype Store = Store(broker: Broker.Broker, dismissed: set<(string, string)>, preferences: map<string, Preference>,
                         known: Known)

  datatype Command =
    | Dismiss(device: string, key: string, item: string, dismissed: bool)
    | Pin(device: string, optionalKey: Option<string>, session: string, pinned: bool, at: int)
    | Archive(device: string, optionalKey: Option<string>, session: string, archived: bool, at: int)
    | Decide(submission: Broker.Submission, now: int)
    | Unkeyed(event: Broker.Event)

  const APPLIED := Broker.Reply(true, None)

  /** An absent or empty key means that the command applies every time. */
  function PairOf(c: Command): Option<(string, string)> {
    match c
    case Dismiss(device, key, _, _) => Some((device, key))
    case Pin(device, key, _, _, _) => if key.Some? && key.value != "" then Some((device, key.value)) else None
    case Archive(device, key, _, _, _) => if key.Some? && key.value != "" then Some((device, key.value)) else None
    case Decide(submission, _) => Some((submission.device, submission.key))
    case Unkeyed(_) => None
  }

  /** A row that breaks a foreign key throws before anything is saved. */
  predicate Applicable(known: Known, c: Command) {
    match c
    case Dismiss(device, _, _, dismissed) => dismissed ==> device in known.devices
    case Pin(_, _, session, _, _) => session in known.sessions
    case Archive(_, _, session, _, _) => session in known.sessions
    case _ => true
  }

  function PreferenceOf(s: Store, session: string): Preference {
    if session in s.preferences then s.preferences[session] else Preference(None, None)
  }

  /** The write of a command, apart from its key. */
  function Write(s: Store, c: Command): Store {
    match c
    case Dismiss(device, _, item, dismissed) =>
      s.(dismissed := if dismissed then s.dismissed + {(device, item)} else s.dismissed - {(device, item)})
    case Pin(_, _, session, pinned, at) =>
      var preference := PreferenceOf(s, session).(pinnedAt := if pinned then Some(at) else None);
      s.(preferences := s.preferences[session := preference])
    case Archive(_, _, session, archived, at) =>
      var preference := PreferenceOf(s, session).(archivedAt := if archived then Some(at) else None);
      s.(preferences := s.preferences[session := preference])
    case Decide(submission, now) => s.(broker := Broker.Decided(s.broker, submission, now))
    case Unkeyed(event) => s.(broker := Broker.Step(s.broker, event))
  }

  function Save(s: Store, pair: (string, string)): Store {
    s.(broker := Broker.Saved(s.broker, StorageKey(pair.0, pair.1), APPLIED))
  }

  predicate Seen(s: Store, pair: (string, string)) {
    StorageKey(pair.0, pair.1) in s.broker.results
  }

  function Delivered(s: Store, c: Command): Store {
    var pair := PairOf(c);
    if !Applicable(s.known, c) || (pair.Some? && Seen(s, pair.value)) then s
    else if pair.None? || c.Decide? then Write(s, c)
    else Save(Write(s, c), pair.value)
  }

  /** Between deliveries devices and sessions come and go; the rows that refer to
      one that is gone go with it. */
  datatype Event = Deliver(command: Command) | Changed(known: Known)

  function Pruned(s: Store, known: Known): Store {
    s.(known := known,
    dismissed := (set row | row in s.dismissed && row.0 in known.devices),
    preferences := map session | session in s.preferences && session in known.sessions :: s.preferences[session])
  }

  function Step(s: Store, e: Event): Store {
    match e
    case Deliver(c) => Delivered(s, c)
    case Changed(known) => Pruned(s, known)
  }

  function Run(s: Store, events: seq<Event>): Store
    decreases |events|
  {
    if events == [] then s else Run(Step(s, events[0]), events[1..])
  }

  function KnownAfter(known: Known, e: Event): Known {
    if e.Changed? then e.known else known
  }

  /** What the delivery of a command that can be applied now makes known. */
  function NewPair(known: Known, e: Event): set<(string, string)> {
    if e.Deliver? && PairOf(e.command).Some? && Applicable(known, e.command) then {PairOf(e.command).value} else {}
  }

  predicate IsRedelivery(seen: set<(string, string)>, e: Event) {
    e.Deliver? && PairOf(e.command).Some? && PairOf(e.command).value in seen
  }

  /** Only the first delivery of each pair that the store could apply when it
      came; a delivery that threw may be applied on a later one. */
  function FirstDeliveries(known: Known, seen: set<(string, string)>, events: seq<Event>): seq<Event>
    decreases |events|
  {
    if events == [] then []
    else if IsRedelivery(seen, events[0]) then FirstDeliveries(known, seen, events[1..])
    else [events[0]] + FirstDeliveries(KnownAfter(known, events[0]), seen + NewPair(known, events[0]), events[1..])
  }

  lemma WriteKeepsSeen(s: Store, c: Command, pair: (string, string))
    requires Seen(s, pair)
    ensures Seen(Write(s, c), pair)
  {
    var key := StorageKey(pair.0, pair.1);
    match c
    case Decide(submission, now) => Broker.StepKeepsResult(s.broker, Broker.Decide(submission, now), key);
    case Unkeyed(event) => Broker.StepKeepsResult(s.broker, event, key);
    case _ =>
  }

  lemma StepKeepsSeen(s: Store, e: Event, pair: (string, string))
    ensures Seen(s, pair) ==> Seen(Step(s, e), pair)
    ensures pair in NewPair(s.known, e) ==> Seen(Step(s, e), pair)
  {
    if Seen(s, pair) && e.Deliver? {
      WriteKeepsSeen(s, e.command, pair);
    }
  }

  lemma StepKnows(s: Store, e: Event)
    ensures Step(s, e).known == KnownAfter(s.known, e)
  {
  }

  /** For every delivery sequence, whatever comes and goes meanwhile, and every
      store it starts from: redelivering a command changes nothing, so the result
      is that of the first deliveries. */
  lemma {:induction false} DuplicatesChangeNothing(s: Store, seen: set<(string, string)>, events: seq<Event>)
    requires forall pair :: pair in seen ==> Seen(s, pair)
    ensures Run(s, events) == Run(s, FirstDeliveries(s.known, seen, events))
    decreases |events|
  {
    if events != [] {
      var e, rest, next := events[0], events[1..], Step(s, events[0]);
      forall p | p in seen + NewPair(s.known, e) ensures Seen(next, p) {
        StepKeepsSeen(s, e, p);
      }
      StepKnows(s, e);
      if IsRedelivery(seen, e) {
        assert next == s;
        DuplicatesChangeNothing(s, seen, rest);
      } else {
        DuplicatesChangeNothing(next, seen + NewPair(s.known, e), rest);
        PrependRuns(s, e, FirstDeliveries(next.known, seen + NewPair(s.known, e), rest));
      }
    }
  }

  lemma PrependRuns(s: Store, e: Event, rest: seq<Event>)
    ensures Run(s, [e] + rest) == Run(Step(s, e), rest)
  {
    assert ([e] + rest)[1..] == rest;
  }

  // -------------------------------------------- what the first deliveries leave

  /** Keys as clients make them; commands outside this model bring none. */
  predicate WellKeyed(c: Command) {
    && (PairOf(c).Some? ==> ColonFree(PairOf(c).value.1))
    && (c.Unkeyed? ==> !c.event.Decide? && !c.event.OtherCommand?)
  }

  ghost predicate Tracks(s: Store, seen: set<(string, string)>) {
    forall pair: (string, string) {:trigger Seen(s, pair)} :: ColonFree(pair.1) ==> (Seen(s, pair) <==> pair in seen)
  }

  predicate AllWellKeyed(events: seq<Event>) {
    forall i :: 0 <= i < |events| && events[i].Deliver? ==> WellKeyed(events[i].command)
  }

  /** Different pairs never suppress each other: besides what was seen before, a
      step makes its own pair seen and no other. */
  lemma StepTracks(s: Store, seen: set<(string, string)>, e: Event)
    requires Tracks(s, seen) && (e.Deliver? ==> WellKeyed(e.command))
    ensures Tracks(Step(s, e), seen + NewPair(s.known, e))
  {
    forall pair: (string, string) | ColonFree(pair.1)
      ensures Seen(Step(s, e), pair) <==> Seen(s, pair) || pair in NewPair(s.known, e)
    {
      StepKeepsSeen(s, e, pair);
      if !Seen(s, pair) && pair !in NewPair(s.known, e) {
        StepSeesNoOther(s, e, pair);
      }
    }
  }

  lemma StepSeesNoOther(s: Store, e: Event, pair: (string, string))
    requires (e.Deliver? ==> WellKeyed(e.command)) && ColonFree(pair.1) && !Seen(s, pair) &&
             pair !in NewPair(s.known, e)
    ensures !Seen(Step(s, e), pair)
  {
    if e.Deliver? && PairOf(e.command).Some? {
      var own := PairOf(e.command).value;
      if StorageKey(own.0, own.1) == StorageKey(pair.0, pair.1) {
        StorageKeyInjective(own.0, own.1, pair.0, pair.1);
      }
    }
  }

  /** What one event does to the flag of an item on a device. */
  function DismissedBy(known: Known, e: Event, device: string, item: string, before: bool): bool {
    match e
    case Changed(next) => before && device in next.devices
    case Deliver(c) =>
      if c.Dismiss? && Applicable(known, c) && c.device == device && c.item == item then c.dismissed else before
  }

  /** The flag the last dismissal command left for this item while its device was
      known throughout, or `initially`. */
  function LastDismissal(known: Known, events: seq<Event>, device: string, item: string, initially: bool): bool
    decreases |events|
  {
    if events == [] then initially
    else LastDismissal(KnownAfter(known, events[0]), events[1..], device, item,
                       DismissedBy(known, events[0], device, item, initially))
  }

  /** What one event does to a session's pin and archive time, independently. */
  function PreferredBy(known: Known, e: Event, session: string, before: Preference): Preference {
    match e
    case Changed(next) => if session in next.sessions then before else Preference(None, None)
    case Deliver(c) =>
      if c.Pin? && Applicable(known, c) && c.session == session then
        before.(pinnedAt := if c.pinned then Some(c.at) else None)
      else if c.Archive? && Applicable(known, c) && c.session == session then
        before.(archivedAt := if c.archived then Some(c.at) else None)
      else before
  }

  function LastPreference(known: Known, events: seq<Event>, session: string, initially: Preference): Preference
    decreases |events|
  {
    if events == [] then initially
    else LastPreference(KnownAfter(known, events[0]), events[1..], session,
                        PreferredBy(known, events[0], session, initially))
  }

  /** Whatever is redelivered and however often, the store ends with the last
      write among the first deliveries, device by device and task by task, apart
      from what went with a device or session that was deleted. */
  lemma {:induction false} LastFirstDeliveryWins(s: Store, seen: set<(string, string)>, events: seq<Event>,
                                                 device: string, item: string, session: string)
    requires Tracks(s, seen) && AllWellKeyed(events)
    ensures var firsts, final := FirstDeliveries(s.known, seen, events), Run(s, events);
            && ((device, item) in final.dismissed <==>
                LastDismissal(s.known, firsts, device, item, (device, item) in s.dismissed))
            && PreferenceOf(final, session) == LastPreference(s.known, firsts, session, PreferenceOf(s, session))
    decreases |events|
  {
    if events != [] {
      var e, rest, next := events[0], events[1..], Step(s, events[0]);
      assert AllWellKeyed(rest) by {
        assert forall i :: 0 <= i < |rest| ==> rest[i] == events[i + 1];
      }
      StepTracks(s, seen, e);
      StepKnows(s, e);
      if IsRedelivery(seen, e) {
        assert Seen(s, PairOf(e.command).value) && next == s;
        LastFirstDeliveryWins(s, seen, rest, device, item, session);
      } else {
        var now := seen + NewPair(s.known, e);
        LastFirstDeliveryWins(next, now, rest, device, item, session);
        var firsts := FirstDeliveries(next.known, now, rest);
        assert FirstDeliveries(s.known, seen, events) == [e] + firsts;
        assert ([e] + firsts)[1..] == firsts;
        StepWrites(s, e, device, item, session);
      }
    }
  }

  lemma StepWrites(s: Store, e: Event, device: string, item: string, session: string)
    requires e.Deliver? && PairOf(e.command).Some? ==> !Seen(s, PairOf(e.command).value)
    ensures var next := Step(s, e);
            && ((device, item) in next.dismissed <==>
                DismissedBy(s.known, e, device, item, (device, item) in s.dismissed))
            && PreferenceOf(next, session) == PreferredBy(s.known, e, session, PreferenceOf(s, session))
  {
  }

  /** A second pin or archive with a key changes nothing; without one, or with an
      empty one, it is applied again. */
  lemma KeyDecidesAboutASecondTime(s: Store, device: string, key: Option<string>, session: string, at: int, later: int)
    requires session in s.known.sessions && (key.Some? ==> !Seen(s, (device, key.value)))
    ensures var once := Delivered(s, Pin(device, key, session, true, at));
            var twice := Delivered(once, Pin(device, key, session, true, later));
            && PreferenceOf(once, session).pinnedAt == Some(at)
            && if key.Some? && key.value != "" then twice == once
               else PreferenceOf(twice, session).pinnedAt == Some(later)
    ensures var once := Delivered(s, Archive(device, key, session, true, at));
            var twice := Delivered(once, Archive(device, key, session, true, later));
            && PreferenceOf(once, session).archivedAt == Some(at)
            && if key.Some? && key.value != "" then twice == once
               else PreferenceOf(twice, session).archivedAt == Some(later)
  {
  }

  /** A decision is the broker's matter alone, and so is what comes without a key. */
  lemma DecisionsGoToTheBroker(s: Store, submission: Broker.Submission, now: int, event: Broker.Event)
    ensures Delivered(s, Decide(submission, now)) ==
            s.(broker := Broker.Step(s.broker, Broker.Decide(submission, now)))
    ensures Delivered(s, Unkeyed(event)) == s.(broker := Broker.Step(s.broker, event))
  {
  }

  /** Only what refers to something unknown throws: a dismissal by an unknown device,
      not the undoing of one, and a pin or archive of an unknown session. */
  lemma ThrowsExactlyWhen(s: Store, c: Command)
    requires (c.Dismiss? || c.Pin? || c.Archive?) && (PairOf(c).Some? ==> !Seen(s, PairOf(c).value))
    ensures (if c.Dismiss? then DismissReply(s, c).None? else PreferenceReply(s, c).None?) <==>
            if c.Dismiss? then c.dismissed && c.device !in s.known.devices else c.session !in s.known.sessions
  {
  }

  // ---------------------------------------------------------------- the handlers

  /** What a handler answers; None when it throws. */
  function DismissReply(s: Store, c: Command): Option<(bool, bool)>
    requires c.Dismiss?
  {
    if Seen(s, (c.device, c.key)) then Some((true, (c.device, c.item) in s.dismissed))
    else if !Applicable(s.known, c) then None
    else Some((false, c.dismissed))
  }

  function PreferenceReply(s: Store, c: Command): Option<(Preference, bool)>
    requires c.Pin? || c.Archive?
  {
    if PairOf(c).Some? && Seen(s, PairOf(c).value) then Some((PreferenceOf(s, c.session), true))
    else if !Applicable(s.known, c) then None
    else Some((PreferenceOf(Write(s, c), c.session), false))
  }

  /** The devices and sessions known when event `i` comes. */
  function KnownAt(known: Known, events: seq<Event>, i: nat): Known
    requires i < |events|
    decreases i
  {
    if i == 0 then known else KnownAt(KnownAfter(known, events[0]), events[1..], i - 1)
  }

  /** A delivery that threw counts for nothing: once the session is known, the same
      delivery is applied. */
  lemma ThrownIsAppliedLater(s: Store, device: string, key: string, session: string, at: int)
    requires ColonFree(key) && !Seen(s, (device, key)) && session !in s.known.sessions && key != ""
    ensures var pin := Deliver(Pin(device, Some(key), session, true, at));
            var later := Changed(Known(s.known.devices, s.known.sessions + {session}));
            Run(s, [pin]) == s && PreferenceOf(Run(s, [pin, later, pin]), session).pinnedAt == Some(at)
  {
    var pin := Deliver(Pin(device, Some(key), session, true, at));
    var later := Changed(Known(s.known.devices, s.known.sessions + {session}));
    assert Step(s, pin) == s;
    var t := Step(s, later);
    assert !Seen(t, (device, key)) && session in t.known.sessions;
    calc {
      Run(s, [pin, later, pin]);
      { PrependRuns(s, pin, [later, pin]); assert [pin] + [later, pin] == [pin, later, pin]; }
      Run(s, [later, pin]);
      { PrependRuns(s, later, [pin]); assert [later] + [pin] == [later, pin]; }
      Run(t, [pin]);
      Step(t, pin);
    }
  }

  predicate AppliesAt(known: Known, events: seq<Event>, i: int, pair: (string, string)) {
    0 <= i < |events| && pair in NewPair(KnownAt(known, events, i), events[i])
  }

  /** A command is reported as a duplicate exactly when its pair came before and
      what it refers to was known then. */
  lemma {:induction false} DuplicatedExactlyWhenDelivered(s: Store, seen: set<(string, string)>, events: seq<Event>,
                                                          pair: (string, string))
    requires Tracks(s, seen) && ColonFree(pair.1) && AllWellKeyed(events)
    ensures Seen(Run(s, events), pair) <==> pair in seen || exists i :: AppliesAt(s.known, events, i, pair)
    decreases |events|
  {
    if events != [] {
      var e, rest, next := events[0], events[1..], Step(s, events[0]);
      assert AllWellKeyed(rest) by {
        assert forall i :: 0 <= i < |rest| ==> rest[i] == events[i + 1];
      }
      StepTracks(s, seen, e);
      StepKnows(s, e);
      DuplicatedExactlyWhenDelivered(next, seen + NewPair(s.known, e), rest, pair);
      assert pair in NewPair(s.known, e) <==> AppliesAt(s.known, events, 0, pair);
      if i :| AppliesAt(next.known, rest, i, pair) {
        assert AppliesAt(s.known, events, i + 1, pair);
      }
      if i :| AppliesAt(s.known, events, i, pair) && i > 0 {
        assert AppliesAt(next.known, rest, i - 1, pair);
      }
    }
  }

  /** The tables behind the handlers; the rest of the broker is not theirs. */
  class PreferenceStore {
    var known: Known
    var dismissed: set<(string, string)>
    var preferences: map<string, Preference>
    var idempotency: map<string, Broker.Reply>
    ghost var broker: Broker.Broker

    ghost function State(): Store
      reads this
    {
      Store(broker.(results := idempotency), dismissed, preferences, known)
    }

    constructor (known: Known)
      ensures State() == Store(Broker.EMPTY, {}, map[], known)
    {
      this.known := known;
      dismissed, preferences, idempotency, broker := {}, map[], map[], Broker.EMPTY;
    }

    /** Devices and sessions change, and what refers to a deleted one is deleted. */
    method ChangeKnown(next: Known)
      modifies this`known, this`dismissed, this`preferences
      ensures State() == Step(old(State()), Changed(next))
    {
      known := next;
      dismissed := set row | row in dismissed && row.0 in next.devices;
      preferences := map session | session in preferences && session in next.sessions :: preferences[session];
    }

    method SaveIdempotentResult(key: string)
      modifies this`idempotency
      ensures idempotency == if key in old(idempotency) then old(idempotency) else old(idempotency)[key := APPLIED]
    {
      if key !in idempotency {
        idempotency := idempotency[key := APPLIED];
      }
    }

    method GetTaskPreference(session: string) returns (preference: Preference)
      ensures preference == PreferenceOf(State(), session)
    {
      preference := if session in preferences then preferences[session] else Preference(None, None);
    }

    method ApplyFeedDismissSet(device: string, item: string, dismiss: bool, key: string)
      returns (reply: Option<(bool, bool)>)
      modifies this
      ensures var c := Dismiss(device, key, item, dismiss);
              State() == Delivered(old(State()), c) && reply == DismissReply(old(State()), c)
    {
      var storageKey := StorageKey(device, key);
      if storageKey in idempotency {
        return Some((true, (device, item) in dismissed));
      }
      if dismiss && device !in known.devices {
        return None;
      }
      dismissed := if dismiss then dismissed + {(device, item)} else dismissed - {(device, item)};
      SaveIdempotentResult(storageKey);
      reply := Some((false, dismiss));
    }

    method SetTaskPinned(session: string, pinned: bool, at: int)
      requires session in known.sessions
      modifies this`preferences
      ensures State() == Write(old(State()), Pin("", None, session, pinned, at))
    {
      var preference := GetTaskPreference(session);
      preferences := preferences[session := preference.(pinnedAt := if pinned then Some(at) else None)];
    }

    method SetTaskPinnedIdempotent(device: string, session: string, pinned: bool, key: Option<string>, at: int)
      returns (reply: Option<(Preference, bool)>)
      modifies this
      ensures var c := Pin(device, key, session, pinned, at);
              State() == Delivered(old(State()), c) && reply == PreferenceReply(old(State()), c)
    {
      var keyed := key.Some? && key.value != "";
      if keyed && StorageKey(device, key.value) in idempotency {
        var current := GetTaskPreference(session);
        return Some((current, true));
      }
      if session !in known.sessions {
        return None;
      }
      SetTaskPinned(session, pinned, at);
      if keyed {
        SaveIdempotentResult(StorageKey(device, key.value));
      }
      var preference := GetTaskPreference(session);
      reply := Some((preference, false));
    }

    method SetTaskArchived(session: string, archived: bool, at: int)
      requires session in known.sessions
      modifies this`preferences
      ensures State() == Write(old(State()), Archive("", None, session, archived, at))
    {
      var preference := GetTaskPreference(session);
      preferences := preferences[session := preference.(archivedAt := if archived then Some(at) else None)];
    }

    method SetTaskArchivedIdempotent(device: string, session: string, archived: bool, key: Option<string>, at: int)
      returns (reply: Option<(Preference, bool)>)
      modifies this
      ensures var c := Archive(device, key, session, archived, at);
              State() == Delivered(old(State()), c) && reply == PreferenceReply(old(State()), c)
    {
      var keyed := key.Some? && key.value != "";
      if keyed && StorageKey(device, key.value) in idempotency {
        var current := GetTaskPreference(session);
        return Some((current, true));
      }
      if session !in known.sessions {
        return None;
      }
      SetTaskArchived(session, archived, at);
      if keyed {
        SaveIdempotentResult(StorageKey(device, key.value));
      }
      var preference := GetTaskPreference(session);
      reply := Some((preference, false));
    }
  }
}
