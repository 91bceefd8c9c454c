/** When a task's failure is pushed: by a feed post, or by a fallback timer when
    no post comes, and in both cases merged per session for two seconds. */
module Notifications {
  import opened Keys

  datatype Kind = Result | Failure

  datatype Task = Task(failed: bool, session: Option<string>)

  /** A push request and, once merged with others of its session, what is sent. */
  datatype Request = Request(kind: Kind, title: Option<string>, summary: Option<string>)

  /** Since a task last was not failed: failure posts, fallbacks that fired,
      posts a fallback had already announced, and failure pushes requested. */
  datatype Ledger = Ledger(posts: nat, fired: nat, absorbed: nat, requested: nat)

  /** The maps and sets of the hub, then the ledgers, what each pending push was
      merged from, and the pushes sent with the requests behind them. */
  datatype Hub = Hub(
    tasks: map<string, Task>, timers: set<string>, feed: set<string>, notified: set<string>,
    pushes: map<string, Request>,
    ledgers: map<string, Ledger>, merged: map<string, seq<Request>>, sent: seq<(Request, seq<Request>)>)

  const NO_ENTRIES := Ledger(0, 0, 0, 0)

  /** A process starts with what the database holds. */
  function Fresh(tasks: map<string, Task>): Hub {
    Hub(tasks, {}, {}, {}, map[], map[], map[], [])
  }

  function LedgerOf(h: Hub, id: string): Ledger {
    if id in h.ledgers then h.ledgers[id] else NO_ENTRIES
  }

  function Record(h: Hub, id: string, ledger: Ledger): Hub {
    h.(ledgers := h.ledgers[id := ledger])
  }

  predicate Truthy(text: Option<string>) {
    text.Some? && text.value != ""
  }

  // -------------------------------------------------------------- status pushes

  function Merge(existing: Request, request: Request): Request {
    var kind := if request.kind.Failure? then Failure else existing.kind;
    var summary :=
      if Truthy(request.summary) && (request.kind.Failure? || existing.kind.Result?) then request.summary
      else existing.summary;
    Request(kind, if Truthy(request.title) then request.title else existing.title, summary)
  }

  function Stored(request: Request): Request {
    Request(request.kind, if Truthy(request.title) then request.title else None,
            if Truthy(request.summary) then request.summary else None)
  }

  function Scheduled(h: Hub, session: string, request: Request): Hub {
    var before := if session in h.merged then h.merged[session] else [];
    var push := if session in h.pushes then Merge(h.pushes[session], request) else Stored(request);
    h.(pushes := h.pushes[session := push], merged := h.merged[session := before + [request]])
  }

  function StatusFlushed(h: Hub, session: string): Hub {
    if session !in h.pushes then h
    else
      h.(pushes := h.pushes - {session}, merged := h.merged - {session},
      sent := h.sent + [(h.pushes[session], if session in h.merged then h.merged[session] else [])])
  }

  // ------------------------------------------------------------ posts and tasks

  /** A stored post; `kind` is None for posts that never push. */
  function Posted(h: Hub, id: string, session: Option<string>, kind: Option<Kind>, inserted: bool,
                  title: Option<string>, summary: Option<string>): Hub
  {
    if !inserted || session.None? || kind.None? then h
    else if kind.value.Result? then Scheduled(h, session.value, Request(Result, title, summary))
    else
      var already, ledger := id in h.notified, LedgerOf(h, id);
      var noted := Record(h.(notified := h.notified - {id}, timers := h.timers - {id}, feed := h.feed + {id}), id,
                          Ledger(ledger.posts + 1, ledger.fired,
                                 if already then ledger.absorbed + 1 else ledger.absorbed,
                                 if already then ledger.requested else ledger.requested + 1));
      if already then noted else Scheduled(noted, session.value, Request(Failure, title, summary))
  }

  predicate BecameFailure(previous: Option<Task>, task: Task) {
    task.failed && (previous.None? || !previous.value.failed || (previous.value.session.None? && task.session.Some?))
  }

  function TaskOf(h: Hub, id: string): Option<Task> {
    if id in h.tasks then Some(h.tasks[id]) else None
  }

  function Updated(h: Hub, id: string, task: Task): Hub {
    var stored := h.(tasks := h.tasks[id := task]);
    if BecameFailure(TaskOf(h, id), task) then
      stored.(notified := h.notified - {id}, feed := h.feed - {id},
      timers := if id !in h.feed && task.session.Some? then h.timers + {id} else h.timers)
    else if !task.failed then
      Record(stored.(timers := h.timers - {id}, feed := h.feed - {id}, notified := h.notified - {id}), id, NO_ENTRIES)
    else stored
  }

  function FallbackFired(h: Hub, id: string, title: Option<string>): Hub {
    if id !in h.timers then h
    else
      var fired, current, ledger := h.(timers := h.timers - {id}), TaskOf(h, id), LedgerOf(h, id);
      if current.None? || current.value.session.None? || !current.value.failed || id in h.feed then fired
      else
        Scheduled(Record(fired.(notified := h.notified + {id}), id,
                         ledger.(fired := ledger.fired + 1, requested := ledger.requested + 1)),
                  current.value.session.value, Request(Failure, title, None))
  }

  /** Deleting a session's row clears the reference its tasks hold. */
  function Detached(h: Hub, session: string): Hub {
    h.(tasks := map id | id in h.tasks ::
                  if h.tasks[id].session == Some(session) then h.tasks[id].(session := None) else h.tasks[id])
  }

  datatype Event =
    | Post(id: string, session: Option<string>, kind: Option<Kind>, inserted: bool, title: Option<string>,
           summary: Option<string>)
    | Update(id: string, task: Task)
    | Fallback(id: string, title: Option<string>)
    | Flush(flushed: string)
    | SessionDeleted(gone: string)

  function Step(h: Hub, e: Event): Hub {
    match e
    case Post(id, session, kind, inserted, title, summary) => Posted(h, id, session, kind, inserted, title, summary)
    case Update(id, task) => Updated(h, id, task)
    case Fallback(id, title) => FallbackFired(h, id, title)
    case Flush(session) => StatusFlushed(h, session)
    case SessionDeleted(session) => Detached(h, session)
  }

  function Run(h: Hub, events: seq<Event>): Hub
    decreases |events|
  {
    if events == [] then h else Run(Step(h, events[0]), events[1..])
  }

  // ------------------------------------------------------- the sets and the ledger

  predicate Disjoint(timer: bool, feed: bool, notified: bool) {
    !(timer && feed) && !(timer && notified) && !(feed && notified)
  }

  /** A timer only runs for a failed task; the books always balance. */
  predicate BooksOk(timer: bool, feed: bool, notified: bool, task: Option<Task>, ledger: Ledger) {
    && Disjoint(timer, feed, notified) && (timer ==> task.Some? && task.value.failed)
    && ledger.requested + ledger.absorbed == ledger.posts + ledger.fired && ledger.absorbed <= ledger.fired
    && ledger.absorbed <= ledger.posts
    && (notified ==> task.Some? && task.value.failed && ledger.absorbed < ledger.fired)
  }

  predicate TaskBooksOk(h: Hub, id: string) {
    BooksOk(id in h.timers, id in h.feed, id in h.notified, TaskOf(h, id), LedgerOf(h, id))
  }

  ghost predicate BooksBalance(h: Hub) {
    forall id :: TaskBooksOk(h, id)
  }

  /** Which task an event is about, if any. */
  function About(e: Event): Option<string> {
    if e.Flush? || e.SessionDeleted? then None else Some(e.id)
  }

  predicate SameFor(h: Hub, d: Hub, id: string) {
    && (id in d.timers <==> id in h.timers) && (id in d.feed <==> id in h.feed)
    && (id in d.notified <==> id in h.notified)
    && TaskOf(d, id) == TaskOf(h, id) && LedgerOf(d, id) == LedgerOf(h, id)
  }

  lemma PostedTouchesOne(h: Hub, e: Event, id: string)
    requires e.Post? && e.id != id
    ensures SameFor(h, Step(h, e), id)
  {
  }

  lemma FallbackTouchesOne(h: Hub, e: Event, id: string)
    requires e.Fallback? && e.id != id
    ensures SameFor(h, Step(h, e), id)
  {
  }

  lemma UpdatedTouchesOne(h: Hub, e: Event, id: string)
    requires e.Update? && e.id != id
    ensures SameFor(h, Step(h, e), id)
  {
  }

  lemma OthersAreUntouched(h: Hub, e: Event, id: string)
    requires About(e) != Some(id) && !e.SessionDeleted?
    ensures SameFor(h, Step(h, e), id)
  {
    match e
    case Post(_, _, _, _, _, _) => PostedTouchesOne(h, e, id);
    case Update(_, _) => UpdatedTouchesOne(h, e, id);
    case Fallback(_, _) => FallbackTouchesOne(h, e, id);
    case Flush(_) =>
  }

  lemma PostedKeepsBooks(h: Hub, e: Event)
    requires e.Post? && TaskBooksOk(h, e.id)
    ensures TaskBooksOk(Step(h, e), e.id)
  {
  }

  lemma UpdatedKeepsBooks(h: Hub, e: Event)
    requires e.Update? && TaskBooksOk(h, e.id)
    ensures TaskBooksOk(Step(h, e), e.id)
  {
  }

  lemma FallbackKeepsBooks(h: Hub, e: Event)
    requires e.Fallback? && TaskBooksOk(h, e.id)
    ensures TaskBooksOk(Step(h, e), e.id)
  {
  }

  lemma StepKeepsBooks(h: Hub, e: Event)
    requires BooksBalance(h)
    ensures BooksBalance(Step(h, e))
  {
    forall id ensures TaskBooksOk(Step(h, e), id) {
      assert TaskBooksOk(h, id);
      if e.SessionDeleted? {
        assert TaskOf(Step(h, e), id).Some? ==>
                 TaskOf(h, id).Some? && TaskOf(Step(h, e), id).value.failed == TaskOf(h, id).value.failed;
      } else if About(e) != Some(id) {
        OthersAreUntouched(h, e, id);
      } else {
        match e
        case Post(_, _, _, _, _, _) => PostedKeepsBooks(h, e);
        case Update(_, _) => UpdatedKeepsBooks(h, e);
        case Fallback(_, _) => FallbackKeepsBooks(h, e);
      }
    }
  }

  /** In every run, with or without sessions: the three sets stay disjoint, and
      the failure pushes requested are the posts and the fallbacks, less the posts
      that a fallback had announced. */
  lemma {:induction false} BooksAlwaysBalance(tasks: map<string, Task>, events: seq<Event>)
    ensures BooksBalance(Run(Fresh(tasks), events))
  {
    RunKeepsBooks(Fresh(tasks), events);
  }

  lemma {:induction false} RunKeepsBooks(h: Hub, events: seq<Event>)
    requires BooksBalance(h)
    ensures BooksBalance(Run(h, events))
    decreases |events|
  {
    if events != [] {
      StepKeepsBooks(h, events[0]);
      RunKeepsBooks(Step(h, events[0]), events[1..]);
    }
  }

  // ---------------------------------------------------------- when the count is exact

  /** The pushes requested are max(failure posts, 1 if the fallback fired). */
  predicate Exact(ledger: Ledger) {
    ledger.fired <= 1 && ledger.requested == if ledger.posts > ledger.fired then ledger.posts else ledger.fired
  }

  /** The timer is about to push for the task. */
  predicate Fires(h: Hub, id: string) {
    id in h.timers && TaskOf(h, id).Some? && TaskOf(h, id).value.session.Some? && TaskOf(h, id).value.failed &&
    id !in h.feed
  }

  /** The event pushes a second time for one failure: a fallback after a post or
      another fallback, or the first post after a fallback that the hub forgot. */
  predicate CountsTwice(h: Hub, e: Event, id: string) {
    var ledger := LedgerOf(h, id);
    match e
    case Fallback(of, _) => of == id && Fires(h, id) && (ledger.posts > 0 || ledger.fired > 0)
    case Post(of, session, kind, inserted, _, _) =>
      of == id && inserted && session.Some? && kind == Some(Failure) && id !in h.notified && ledger.posts == 0 &&
      ledger.fired > 0
    case _ => false
  }

  /** An event leaves an exact count exact precisely when it does not count twice. */
  lemma StaysExactUnlessCountedTwice(h: Hub, e: Event, id: string)
    requires BooksBalance(h) && Exact(LedgerOf(h, id))
    ensures Exact(LedgerOf(Step(h, e), id)) <==> !CountsTwice(h, e, id)
  {
    assert TaskBooksOk(h, id);
    if About(e) != Some(id) && !e.SessionDeleted? {
      OthersAreUntouched(h, e, id);
    }
  }

  ghost predicate AlwaysExact(h: Hub, events: seq<Event>, id: string)
    decreases |events|
  {
    Exact(LedgerOf(h, id)) && (events == [] || AlwaysExact(Step(h, events[0]), events[1..], id))
  }

  ghost predicate NeverCountsTwice(h: Hub, events: seq<Event>, id: string)
    decreases |events|
  {
    events == [] || (!CountsTwice(h, events[0], id) && NeverCountsTwice(Step(h, events[0]), events[1..], id))
  }

  lemma {:induction false} ExactFromHere(h: Hub, events: seq<Event>, id: string)
    requires BooksBalance(h) && Exact(LedgerOf(h, id))
    ensures AlwaysExact(h, events, id) <==> NeverCountsTwice(h, events, id)
    decreases |events|
  {
    if events != [] {
      var next := Step(h, events[0]);
      StepKeepsBooks(h, events[0]);
      StaysExactUnlessCountedTwice(h, events[0], id);
      if Exact(LedgerOf(next, id)) {
        ExactFromHere(next, events[1..], id);
      }
    }
  }

  /** In every run, sessions lost or not: the count stays exact throughout if and
      only if no event of the run counts twice. */
  lemma AlwaysExactExactlyWhen(tasks: map<string, Task>, events: seq<Event>, id: string)
    ensures AlwaysExact(Fresh(tasks), events, id) <==> NeverCountsTwice(Fresh(tasks), events, id)
  {
    ExactFromHere(Fresh(tasks), events, id);
  }

  // ------------------------------------------------- the count, with sessions known

  /** A failed task is written with its session, and no session is deleted while
      a failed task refers to it. */
  ghost predicate SessionPresent(h: Hub, e: Event) {
    match e
    case Update(_, task) => task.failed ==> task.session.Some?
    case SessionDeleted(gone) => forall id :: id in h.tasks && h.tasks[id].failed ==> h.tasks[id].session != Some(gone)
    case _ => true
  }

  ghost predicate SessionsPresent(h: Hub, events: seq<Event>)
    decreases |events|
  {
    events == [] || (SessionPresent(h, events[0]) && SessionsPresent(Step(h, events[0]), events[1..]))
  }

  ghost predicate FailedHaveSessions(tasks: map<string, Task>) {
    forall id :: id in tasks && tasks[id].failed ==> tasks[id].session.Some?
  }

  predicate EpisodeOk(timer: bool, feed: bool, notified: bool, task: Option<Task>, ledger: Ledger) {
    && Disjoint(timer, feed, notified)
    && (task.Some? && task.value.failed ==> task.value.session.Some?)
    && (timer || notified || ledger.fired > 0 ==> task.Some? && task.value.failed)
    && (timer ==> ledger.posts == 0 && ledger.fired == 0) && (feed ==> ledger.posts > 0)
    && (ledger.posts > 0 && (task.Some? ==> !task.value.failed) ==> feed)
    && (notified <==> ledger.fired == 1 && ledger.posts == 0) && Exact(ledger)
  }

  predicate TaskEpisodeOk(h: Hub, id: string) {
    EpisodeOk(id in h.timers, id in h.feed, id in h.notified, TaskOf(h, id), LedgerOf(h, id))
  }

  ghost predicate EpisodesOk(h: Hub) {
    forall id :: TaskEpisodeOk(h, id)
  }

  lemma PostedKeepsEpisode(h: Hub, e: Event)
    requires e.Post? && TaskEpisodeOk(h, e.id)
    ensures TaskEpisodeOk(Step(h, e), e.id)
  {
  }

  lemma UpdatedKeepsEpisode(h: Hub, e: Event)
    requires e.Update? && TaskEpisodeOk(h, e.id) && SessionPresent(h, e)
    ensures TaskEpisodeOk(Step(h, e), e.id)
  {
  }

  lemma FallbackKeepsEpisode(h: Hub, e: Event)
    requires e.Fallback? && TaskEpisodeOk(h, e.id)
    ensures TaskEpisodeOk(Step(h, e), e.id)
  {
  }

  lemma StepKeepsEpisodes(h: Hub, e: Event)
    requires EpisodesOk(h) && SessionPresent(h, e)
    ensures EpisodesOk(Step(h, e))
  {
    forall id ensures TaskEpisodeOk(Step(h, e), id) {
      assert TaskEpisodeOk(h, id);
      if e.SessionDeleted? {
        assert TaskOf(h, id).Some? && TaskOf(h, id).value.failed ==> TaskOf(Step(h, e), id) == TaskOf(h, id);
      } else if About(e) != Some(id) {
        OthersAreUntouched(h, e, id);
      } else {
        match e
        case Post(_, _, _, _, _, _) => PostedKeepsEpisode(h, e);
        case Update(_, _) => UpdatedKeepsEpisode(h, e);
        case Fallback(_, _) => FallbackKeepsEpisode(h, e);
      }
    }
  }

  lemma {:induction false} RunKeepsEpisodes(h: Hub, events: seq<Event>)
    requires EpisodesOk(h) && SessionsPresent(h, events)
    ensures EpisodesOk(Run(h, events))
    decreases |events|
  {
    if events != [] {
      StepKeepsEpisodes(h, events[0]);
      RunKeepsEpisodes(Step(h, events[0]), events[1..]);
    }
  }

  /** So the count is exact in every run in which failed tasks keep their session:
      this much a caller can see to. */
  lemma PushesAreCountedExactly(tasks: map<string, Task>, events: seq<Event>, id: string)
    requires FailedHaveSessions(tasks) && SessionsPresent(Fresh(tasks), events)
    ensures Exact(LedgerOf(Run(Fresh(tasks), events), id))
  {
    assert EpisodesOk(Fresh(tasks)) by {
      forall other ensures TaskEpisodeOk(Fresh(tasks), other) {
      }
    }
    RunKeepsEpisodes(Fresh(tasks), events);
    assert TaskEpisodeOk(Run(Fresh(tasks), events), id);
  }

  // --------------------------------------------------- the count, as pushes scheduled

  /** What waits to be sent for a session was merged from these. */
  function MergedOf(h: Hub, session: string): seq<Request> {
    if session in h.merged then h.merged[session] else []
  }

  /** The requests that a step added to them. */
  function Gained(h: Hub, d: Hub, session: string): seq<Request> {
    var before, after := MergedOf(h, session), MergedOf(d, session);
    if |before| <= |after| then after[|before|..] else []
  }

  /** The session an event may schedule a push for. */
  function SessionOf(h: Hub, e: Event): Option<string> {
    match e
    case Post(_, session, _, _, _, _) => session
    case Fallback(id, _) => if TaskOf(h, id).Some? then TaskOf(h, id).value.session else None
    case _ => None
  }

  /** A newly stored failure post that no fallback has announced. */
  predicate PostsFirst(h: Hub, e: Event) {
    e.Post? && e.inserted && e.session.Some? && e.kind == Some(Failure) && e.id !in h.notified
  }

  /** What an event asks to be pushed: the failure of a post that nothing announced or
      of a fallback that fires, or the result of a result post, with its own text. */
  function Asked(h: Hub, e: Event): Option<Request> {
    match e
    case Post(_, _, kind, inserted, title, summary) =>
      if PostsFirst(h, e) then Some(Request(Failure, title, summary))
      else if inserted && kind == Some(Result) then Some(Request(Result, title, summary))
      else None
    case Fallback(id, title) => if Fires(h, id) then Some(Request(Failure, title, None)) else None
    case _ => None
  }

  lemma ScheduledGains(h: Hub, d: Hub, of: string, request: Request, session: string)
    requires d.merged == h.merged
    ensures MergedOf(Scheduled(d, of, request), session) ==
            MergedOf(h, session) + if session == of then [request] else []
  {
  }

  lemma FailurePostSchedules(h: Hub, e: Event, session: string)
    requires PostsFirst(h, e)
    ensures MergedOf(Step(h, e), session) ==
            MergedOf(h, session) + if e.session == Some(session) then [Request(Failure, e.title, e.summary)] else []
  {
  }

  lemma PostSchedules(h: Hub, e: Event, session: string)
    requires e.Post?
    ensures MergedOf(Step(h, e), session) ==
            MergedOf(h, session) + if e.session == Some(session) && Asked(h, e).Some? then [Asked(h, e).value] else []
  {
    if PostsFirst(h, e) {
      FailurePostSchedules(h, e, session);
    } else if e.inserted && e.session.Some? && e.kind == Some(Result) {
      ScheduledGains(h, h, e.session.value, Asked(h, e).value, session);
    }
  }

  lemma FallbackSchedules(h: Hub, e: Event, session: string)
    requires e.Fallback?
    ensures MergedOf(Step(h, e), session) ==
            MergedOf(h, session) +
            if SessionOf(h, e) == Some(session) && Fires(h, e.id) then [Asked(h, e).value] else []
  {
    if Fires(h, e.id) {
      var d := Step(h, e);
      var noted := d.(pushes := h.pushes, merged := h.merged);
      ScheduledGains(h, noted, SessionOf(h, e).value, Asked(h, e).value, session);
      assert d == Scheduled(noted, SessionOf(h, e).value, Asked(h, e).value);
    }
  }

  /** An event schedules exactly what it asks for, once and for its own session, and
      only a flush takes requests away. */
  lemma EventsScheduleExactly(h: Hub, e: Event, session: string)
    ensures Gained(h, Step(h, e), session) ==
            if SessionOf(h, e) == Some(session) && Asked(h, e).Some? then [Asked(h, e).value] else []
    ensures e != Flush(session) ==> MergedOf(h, session) <= MergedOf(Step(h, e), session)
  {
    match e
    case Post(_, _, _, _, _, _) => PostSchedules(h, e, session);
    case Fallback(_, _) => FallbackSchedules(h, e, session);
    case _ =>
  }

  function Failures(requests: seq<Request>): nat {
    if requests == [] then 0
    else Failures(requests[..|requests| - 1]) + if requests[|requests| - 1].kind.Failure? then 1 else 0
  }

  /** The failure pushes that an event scheduled. */
  function PushedBy(h: Hub, e: Event): nat {
    if SessionOf(h, e).None? then 0 else Failures(Gained(h, Step(h, e), SessionOf(h, e).value))
  }

  /** A task that did not fail, or no longer does, starts a new count. */
  predicate EndsEpisode(e: Event, id: string) {
    e.Update? && e.id == id && !e.task.failed
  }

  /** The failure pushes scheduled for a task in its present episode. */
  function PushesOf(h: Hub, events: seq<Event>, id: string): nat {
    if events == [] then 0
    else
      var earlier, last := events[..|events| - 1], events[|events| - 1];
      if EndsEpisode(last, id) then 0
      else PushesOf(h, earlier, id) + if About(last) == Some(id) then PushedBy(Run(h, earlier), last) else 0
  }

  predicate PostsFailure(e: Event, id: string) {
    e.Post? && e.id == id && e.inserted && e.session.Some? && e.kind == Some(Failure)
  }

  /** Its failure posts, and the fallbacks that fired for it. */
  function PostsOf(events: seq<Event>, id: string): nat {
    if events == [] then 0
    else
      var earlier, last := events[..|events| - 1], events[|events| - 1];
      if EndsEpisode(last, id) then 0 else PostsOf(earlier, id) + if PostsFailure(last, id) then 1 else 0
  }

  function FiringsOf(h: Hub, events: seq<Event>, id: string): nat {
    if events == [] then 0
    else
      var earlier, last := events[..|events| - 1], events[|events| - 1];
      if EndsEpisode(last, id) then 0
      else FiringsOf(h, earlier, id) + if last.Fallback? && last.id == id && Fires(Run(h, earlier), id) then 1 else 0
  }

  lemma {:induction false} RunLast(h: Hub, events: seq<Event>, e: Event)
    ensures Run(h, events + [e]) == Step(Run(h, events), e)
    decreases |events|
  {
    if events == [] {
      assert ([] + [e])[1..] == [];
    } else {
      assert (events + [e])[1..] == events[1..] + [e];
      RunLast(Step(h, events[0]), events[1..], e);
    }
  }

  lemma PushedIsAsked(h: Hub, e: Event)
    ensures PushedBy(h, e) ==
            if SessionOf(h, e).Some? && Asked(h, e).Some? && Asked(h, e).value.kind.Failure? then 1 else 0
  {
    if SessionOf(h, e).Some? {
      EventsScheduleExactly(h, e, SessionOf(h, e).value);
      if Asked(h, e).Some? {
        var one := [Asked(h, e).value];
        assert one[..|one| - 1] == [];
        assert Failures(one) == Failures([]) + if one[0].kind.Failure? then 1 else 0;
      }
    }
  }

  /** One event moves the ledger of a task: by `pushed` failure pushes and, if it
      `fires`, by one fallback. */
  predicate Booked(e: Event, id: string, before: Ledger, after: Ledger, pushed: nat, fires: bool) {
    if EndsEpisode(e, id) then after == NO_ENTRIES
    else
      && after.requested == before.requested + pushed && after.fired == before.fired + (if fires then 1 else 0)
      && after.posts == before.posts + (if PostsFailure(e, id) then 1 else 0)
  }

  lemma PostIsBooked(h: Hub, e: Event)
    requires e.Post?
    ensures Booked(e, e.id, LedgerOf(h, e.id), LedgerOf(Step(h, e), e.id), if PostsFirst(h, e) then 1 else 0, false)
  {
  }

  lemma FallbackIsBooked(h: Hub, e: Event)
    requires e.Fallback?
    ensures var fires := Fires(h, e.id);
            Booked(e, e.id, LedgerOf(h, e.id), LedgerOf(Step(h, e), e.id), if fires then 1 else 0, fires)
  {
  }

  lemma StepIsBooked(h: Hub, e: Event, id: string)
    ensures var pushed := if About(e) == Some(id) then PushedBy(h, e) else 0;
            var fires := e.Fallback? && e.id == id && Fires(h, id);
            Booked(e, id, LedgerOf(h, id), LedgerOf(Step(h, e), id), pushed, fires)
  {
    PushedIsAsked(h, e);
    if e.Post? && e.id == id {
      PostIsBooked(h, e);
    } else if e.Fallback? && e.id == id {
      FallbackIsBooked(h, e);
    } else if About(e) != Some(id) && !e.SessionDeleted? {
      OthersAreUntouched(h, e, id);
    }
  }

  /** In every run the ledger is what has happened: the pushes scheduled, the posts
      stored and the fallbacks fired since the task last did not fail. */
  lemma {:induction false} LedgerCountsWhatHappened(tasks: map<string, Task>, events: seq<Event>, id: string)
    ensures var ledger := LedgerOf(Run(Fresh(tasks), events), id);
            && ledger.requested == PushesOf(Fresh(tasks), events, id) && ledger.posts == PostsOf(events, id)
            && ledger.fired == FiringsOf(Fresh(tasks), events, id)
  {
    if events != [] {
      var earlier, last := events[..|events| - 1], events[|events| - 1];
      LedgerCountsWhatHappened(tasks, earlier, id);
      RunLast(Fresh(tasks), earlier, last);
      assert events == earlier + [last];
      StepIsBooked(Run(Fresh(tasks), earlier), last, id);
    }
  }

  /** So in every run in which failed tasks keep their session, the failure pushes
      really scheduled are as many as the failure posts, or one if only the fallback
      fired, and that fires at most once. */
  lemma ScheduledPushesAreCountedExactly(tasks: map<string, Task>, events: seq<Event>, id: string)
    requires FailedHaveSessions(tasks) && SessionsPresent(Fresh(tasks), events)
    ensures var posts, fired := PostsOf(events, id), FiringsOf(Fresh(tasks), events, id);
            fired <= 1 && PushesOf(Fresh(tasks), events, id) == if posts > fired then posts else fired
  {
    PushesAreCountedExactly(tasks, events, id);
    LedgerCountsWhatHappened(tasks, events, id);
  }

  /** A write arms the fallback exactly when the task enters failure with a session
      and no failure post came first; only a task that still fails keeps it armed. */
  lemma UpdateArmsExactlyWhen(h: Hub, id: string, task: Task)
    requires BooksBalance(h)
    ensures id in Step(h, Update(id, task)).timers <==>
            task.failed &&
            (id in h.timers || (BecameFailure(TaskOf(h, id), task) && task.session.Some? && id !in h.feed))
  {
    assert TaskBooksOk(h, id);
  }

  lemma {:induction false} UntouchedWhileOthersRun(h: Hub, events: seq<Event>, id: string)
    requires forall e :: e in events ==> About(e) != Some(id) && !e.SessionDeleted?
    ensures SameFor(h, Run(h, events), id)
    decreases |events|
  {
    if events != [] {
      OthersAreUntouched(h, events[0], id);
      UntouchedWhileOthersRun(Step(h, events[0]), events[1..], id);
    }
  }

  /** A failure that nobody posts is pushed: a task enters failure with a session and,
      whatever happens to others, its fallback then schedules one failure push. */
  lemma UnpostedFailureIsPushed(h: Hub, id: string, session: string, others: seq<Event>, title: Option<string>)
    requires BooksBalance(h) && BecameFailure(TaskOf(h, id), Task(true, Some(session))) && id !in h.feed
    requires forall e :: e in others ==> About(e) != Some(id) && !e.SessionDeleted?
    ensures var waiting := Run(Step(h, Update(id, Task(true, Some(session)))), others);
            && id in waiting.timers
            && Gained(waiting, Step(waiting, Fallback(id, title)), session) == [Request(Failure, title, None)]
  {
    var armed := Step(h, Update(id, Task(true, Some(session))));
    UpdateArmsExactlyWhen(h, id, Task(true, Some(session)));
    UntouchedWhileOthersRun(armed, others, id);
    assert id !in armed.feed && TaskOf(armed, id) == Some(Task(true, Some(session)));
    EventsScheduleExactly(Run(armed, others), Fallback(id, title), session);
  }

  lemma FiveSteps(h: Hub, a: Event, b: Event, c: Event, d: Event, e: Event)
    ensures Run(h, [a, b, c, d, e]) == Step(Step(Step(Step(Step(h, a), b), c), d), e)
  {
    assert [a, b, c, d, e][1..] == [b, c, d, e] && [b, c, d, e][1..] == [c, d, e] && [c, d, e][1..] == [d, e] &&
           [d, e][1..] == [e];
    var h1, h2 := Step(h, a), Step(Step(h, a), b);
    var h3, h4 := Step(h2, c), Step(Step(h2, c), d);
    calc {
      Run(h, [a, b, c, d, e]);
      Run(h1, [b, c, d, e]);
      Run(h2, [c, d, e]);
      Run(h3, [d, e]);
      Run(h4, [e]);
      Run(Step(h4, e), []);
    }
  }

  /** A failed task loses its session to a deletion and is written again with
      another. In both orders of post and fallback one failure is pushed twice. */
  lemma LostSessionCountsTwice(id: string, lost: string, next: string)
    ensures var post := Post(id, Some(lost), Some(Failure), true, None, None);
            var events := [post, Update(id, Task(true, Some(lost))), SessionDeleted(lost),
                           Update(id, Task(true, Some(next))), Fallback(id, None)];
            LedgerOf(Run(Fresh(map[]), events), id) == Ledger(1, 1, 0, 2)
    ensures var post := Post(id, Some(next), Some(Failure), true, None, None);
            var events := [Update(id, Task(true, Some(lost))), Fallback(id, None), SessionDeleted(lost),
                           Update(id, Task(true, Some(next))), post];
            LedgerOf(Run(Fresh(map[]), events), id) == Ledger(1, 1, 0, 2)
  {
    FallbackAfterPost(id, lost, next);
    PostAfterFallback(id, lost, next);
  }

  lemma FallbackAfterPost(id: string, lost: string, next: string)
    ensures var post := Post(id, Some(lost), Some(Failure), true, None, None);
            var events := [post, Update(id, Task(true, Some(lost))), SessionDeleted(lost),
                           Update(id, Task(true, Some(next))), Fallback(id, None)];
            LedgerOf(Run(Fresh(map[]), events), id) == Ledger(1, 1, 0, 2)
  {
    var post := Post(id, Some(lost), Some(Failure), true, None, None);
    var first, second := Update(id, Task(true, Some(lost))), Update(id, Task(true, Some(next)));
    FiveSteps(Fresh(map[]), post, first, SessionDeleted(lost), second, Fallback(id, None));
    var h2 := Step(Step(Fresh(map[]), post), first);
    assert LedgerOf(h2, id) == Ledger(1, 0, 0, 1) && id !in h2.feed && id !in h2.timers &&
           TaskOf(h2, id) == Some(first.task);
    var h4 := Step(Step(h2, SessionDeleted(lost)), second);
    assert LedgerOf(h4, id) == Ledger(1, 0, 0, 1) && id in h4.timers && id !in h4.feed &&
           TaskOf(h4, id) == Some(second.task);
  }

  lemma PostAfterFallback(id: string, lost: string, next: string)
    ensures var post := Post(id, Some(next), Some(Failure), true, None, None);
            var events := [Update(id, Task(true, Some(lost))), Fallback(id, None), SessionDeleted(lost),
                           Update(id, Task(true, Some(next))), post];
            LedgerOf(Run(Fresh(map[]), events), id) == Ledger(1, 1, 0, 2)
  {
    var post := Post(id, Some(next), Some(Failure), true, None, None);
    var first, second := Update(id, Task(true, Some(lost))), Update(id, Task(true, Some(next)));
    FiveSteps(Fresh(map[]), first, Fallback(id, None), SessionDeleted(lost), second, post);
    var h2 := Step(Step(Fresh(map[]), first), Fallback(id, None));
    assert LedgerOf(h2, id) == Ledger(0, 1, 0, 1) && id !in h2.feed && TaskOf(h2, id) == Some(first.task);
    var h4 := Step(Step(h2, SessionDeleted(lost)), second);
    assert LedgerOf(h4, id) == Ledger(0, 1, 0, 1) && id !in h4.notified && TaskOf(h4, id) == Some(second.task);
  }

  // -------------------------------------------------------------- merged pushes

  predicate AnyFailure(requests: seq<Request>) {
    exists i :: 0 <= i < |requests| && requests[i].kind.Failure?
  }

  /** The last title given. */
  function LastTitle(requests: seq<Request>): Option<string> {
    if requests == [] then None
    else if requests[|requests| - 1].title !in {None, Some("")} then requests[|requests| - 1].title
    else LastTitle(requests[..|requests| - 1])
  }

  /** The last failure's summary; before any failure gave one, the last a result
      gave while no failure had come. */
  function LastSummary(requests: seq<Request>): Option<string> {
    if requests == [] then None
    else
      var init, last := requests[..|requests| - 1], requests[|requests| - 1];
      if last.summary !in {None, Some("")} && (last.kind.Failure? || !AnyFailure(init)) then last.summary
      else LastSummary(init)
  }

  predicate MergedOk(pending: Request, requests: seq<Request>) {
    && requests != [] && (pending.kind.Failure? <==> AnyFailure(requests))
    && pending.title == LastTitle(requests) && pending.summary == LastSummary(requests)
  }

  ghost predicate PushesOk(h: Hub) {
    && h.pushes.Keys == h.merged.Keys
    && (forall session :: session in h.pushes ==> session in h.merged && MergedOk(h.pushes[session], h.merged[session]))
    && (forall i :: 0 <= i < |h.sent| ==> MergedOk(h.sent[i].0, h.sent[i].1))
  }

  lemma MergeKeepsMerged(pending: Request, requests: seq<Request>, request: Request)
    requires MergedOk(pending, requests)
    ensures MergedOk(Merge(pending, request), requests + [request])
  {
    var longer := requests + [request];
    assert longer[..|requests|] == requests;
    assert AnyFailure(longer) <==> AnyFailure(requests) || request.kind.Failure? by {
      if AnyFailure(requests) {
        var i :| 0 <= i < |requests| && requests[i].kind.Failure?;
        assert longer[i].kind.Failure?;
      }
      assert longer[|requests|] == request;
    }
  }

  lemma FirstIsMerged(request: Request)
    ensures MergedOk(Stored(request), [request])
  {
    var one := [request];
    assert one[..|one| - 1] == [] && one[0] == request;
    assert LastTitle(one) == if Truthy(request.title) then request.title else LastTitle([]);
    assert LastSummary(one) == if Truthy(request.summary) then request.summary else LastSummary([]);
  }

  lemma ScheduledKeepsPushes(h: Hub, session: string, request: Request)
    requires PushesOk(h)
    ensures PushesOk(Scheduled(h, session, request))
  {
    if session in h.pushes {
      MergeKeepsMerged(h.pushes[session], h.merged[session], request);
    } else {
      FirstIsMerged(request);
      assert [] + [request] == [request];
    }
  }

  lemma PostKeepsPushes(h: Hub, e: Event)
    requires PushesOk(h) && e.Post? && e.inserted && e.session.Some? && e.kind.Some?
    ensures PushesOk(Step(h, e))
  {
    var id, session := e.id, e.session.value;
    if e.kind.value.Result? {
      ScheduledKeepsPushes(h, session, Request(Result, e.title, e.summary));
    } else if id !in h.notified {
      var noted := h.(notified := h.notified - {id}, timers := h.timers - {id}, feed := h.feed + {id},
                      ledgers := Step(h, e).ledgers);
      ScheduledKeepsPushes(noted, session, Request(Failure, e.title, e.summary));
      assert Step(h, e) == Scheduled(noted, session, Request(Failure, e.title, e.summary));
    }
  }

  lemma StepKeepsPushes(h: Hub, e: Event)
    requires PushesOk(h)
    ensures PushesOk(Step(h, e))
  {
    match e
    case Post(id, session, kind, inserted, title, summary) =>
      if inserted && session.Some? && kind.Some? {
        PostKeepsPushes(h, e);
      }
    case Update(id, task) =>
    case Fallback(id, title) =>
      var d := Step(h, e);
      var noted := h.(timers := d.timers, notified := d.notified, ledgers := d.ledgers);
      if id in h.timers && TaskOf(h, id).Some? && TaskOf(h, id).value.session.Some? {
        ScheduledKeepsPushes(noted, TaskOf(h, id).value.session.value, Request(Failure, title, None));
      }
    case Flush(session) =>
    case SessionDeleted(session) =>
  }

  lemma {:induction false} RunKeepsPushes(h: Hub, events: seq<Event>)
    requires PushesOk(h)
    ensures PushesOk(Run(h, events))
    decreases |events|
  {
    if events != [] {
      StepKeepsPushes(h, events[0]);
      RunKeepsPushes(Step(h, events[0]), events[1..]);
    }
  }

  /** What was scheduled for a session is sent, all of it and once, by the next flush. */
  lemma FlushSendsWhatWaits(tasks: map<string, Task>, events: seq<Event>, session: string)
    ensures var h := Run(Fresh(tasks), events);
            var d := Step(h, Flush(session));
            && MergedOf(d, session) == [] && session !in d.pushes
            && if MergedOf(h, session) == [] then d.sent == h.sent
               else
                 && |d.sent| == |h.sent| + 1 && h.sent <= d.sent
                 && var (push, requests) := d.sent[|h.sent|];
                    requests == MergedOf(h, session) && MergedOk(push, requests)
  {
    RunKeepsPushes(Fresh(tasks), events);
    StepKeepsPushes(Run(Fresh(tasks), events), Flush(session));
  }

  /** A push sent for a session is a failure exactly when a failure was merged
      into it, and carries the last title and the summary that outranks. */
  lemma SentPushesSayWhatWasMerged(tasks: map<string, Task>, events: seq<Event>, i: nat)
    requires i < |Run(Fresh(tasks), events).sent|
    ensures var (push, requests) := Run(Fresh(tasks), events).sent[i]; MergedOk(push, requests)
  {
    RunKeepsPushes(Fresh(tasks), events);
  }

  // ---------------------------------------------------------- approval reminders

  const REMINDER_LEAD := 300_000
  const REMINDER_MIN_DELAY := 60_000
  const REMINDER_MIN_REMAINING := 90_000
  const MAX_TIMER := 2_147_483_647

  function ReminderDelay(pending: bool, expiresAt: int, now: int): Option<int> {
    var remaining := expiresAt - now;
    var remindAt := if now + REMINDER_MIN_DELAY > expiresAt - REMINDER_LEAD then now + REMINDER_MIN_DELAY
                    else expiresAt - REMINDER_LEAD;
    if !pending || remaining < REMINDER_MIN_REMAINING then None
    else if remindAt < expiresAt && remindAt - now <= MAX_TIMER then Some(remindAt - now)
    else None
  }

  /** A reminder is due at least a minute from now and at least 30 seconds before
      the approval expires, and is skipped exactly when that cannot be met or the
      timer would overflow; the test against the expiry never decides. */
  lemma ReminderIsTimely(pending: bool, expiresAt: int, now: int)
    ensures var delay := ReminderDelay(pending, expiresAt, now);
            && (delay.Some? <==>
                pending && now + REMINDER_MIN_REMAINING <= expiresAt <= now + MAX_TIMER + REMINDER_LEAD)
            && (delay.Some? ==> REMINDER_MIN_DELAY <= delay.value && now + delay.value + 30_000 <= expiresAt
                                && (delay.value > REMINDER_MIN_DELAY ==>
                                      now + delay.value == expiresAt - REMINDER_LEAD))
  {
  }

  // ---------------------------------------------------------------------- the hub

  /** Ledgers, merged requests and sent pushes are kept for the proofs. */
  class RuntimeHub {
    var tasks: map<string, Task>
    var failureFallbackTimers: set<string>
    var failureFeedTaskIds: set<string>
    var failureFallbackNotifiedTaskIds: set<string>
    var statusPushes: map<string, Request>
    ghost var record: Hub

    ghost function State(): Hub
      reads this
    {
      record.(tasks := tasks, timers := failureFallbackTimers, feed := failureFeedTaskIds,
      notified := failureFallbackNotifiedTaskIds, pushes := statusPushes)
    }

    constructor (tasks: map<string, Task>)
      ensures State() == Fresh(tasks)
    {
      this.tasks := tasks;
      failureFallbackTimers, failureFeedTaskIds, failureFallbackNotifiedTaskIds, statusPushes := {}, {}, {}, map[];
      record := Fresh(tasks);
    }

    method CancelFailureFallback(id: string)
      modifies this`failureFallbackTimers
      ensures failureFallbackTimers == old(failureFallbackTimers) - {id}
    {
      failureFallbackTimers := failureFallbackTimers - {id};
    }

    method ScheduleFailureFallback(id: string, task: Task)
      modifies this`failureFallbackTimers
      ensures failureFallbackTimers ==
              if task.session.Some? then old(failureFallbackTimers) + {id} else old(failureFallbackTimers)
    {
      if task.session.None? {
        return;
      }
      CancelFailureFallback(id);
      failureFallbackTimers := failureFallbackTimers + {id};
    }

    method ScheduleStatusPush(kind: Kind, session: string, title: Option<string>, summary: Option<string>)
      modifies this`statusPushes, this`record
      ensures State() == Scheduled(old(State()), session, Request(kind, title, summary))
    {
      var request := Request(kind, title, summary);
      ghost var earlier := if session in record.merged then record.merged[session] else [];
      record := record.(merged := record.merged[session := earlier + [request]]);
      if session in statusPushes {
        var existing := statusPushes[session];
        if kind.Failure? {
          existing := existing.(kind := Failure);
          if Truthy(summary) {
            existing := existing.(summary := summary);
          }
        } else if existing.kind.Result? && Truthy(summary) {
          existing := existing.(summary := summary);
        }
        if Truthy(title) {
          existing := existing.(title := title);
        }
        statusPushes := statusPushes[session := existing];
        return;
      }
      statusPushes := statusPushes[session := Stored(request)];
    }

    method PostFeed(id: string, session: Option<string>, kind: Option<Kind>, inserted: bool, title: Option<string>,
                    summary: Option<string>)
      modifies this
      ensures State() == Posted(old(State()), id, session, kind, inserted, title, summary)
    {
      if !inserted || session.None? || kind.None? {
        return;
      }
      if kind.value.Result? {
        ScheduleStatusPush(Result, session.value, title, summary);
        return;
      }
      var already := id in failureFallbackNotifiedTaskIds;
      failureFallbackNotifiedTaskIds := failureFallbackNotifiedTaskIds - {id};
      CancelFailureFallback(id);
      failureFeedTaskIds := failureFeedTaskIds + {id};
      ghost var ledger := LedgerOf(record, id);
      ledger := if already then ledger.(absorbed := ledger.absorbed + 1)
                else ledger.(requested := ledger.requested + 1);
      record := record.(ledgers := record.ledgers[id := ledger.(posts := ledger.posts + 1)]);
      if !already {
        ScheduleStatusPush(Failure, session.value, title, summary);
      }
    }

    method UpdateTask(id: string, task: Task)
      modifies this
      ensures State() == Updated(old(State()), id, task)
    {
      var becameFailure := task.failed &&
                           (id !in tasks || !tasks[id].failed || (tasks[id].session.None? && task.session.Some?));
      tasks := tasks[id := task];
      if becameFailure {
        failureFallbackNotifiedTaskIds := failureFallbackNotifiedTaskIds - {id};
        var posted := id in failureFeedTaskIds;
        failureFeedTaskIds := failureFeedTaskIds - {id};
        if !posted {
          ScheduleFailureFallback(id, task);
        }
      } else if !task.failed {
        CancelFailureFallback(id);
        failureFeedTaskIds := failureFeedTaskIds - {id};
        failureFallbackNotifiedTaskIds := failureFallbackNotifiedTaskIds - {id};
        record := record.(ledgers := record.ledgers[id := NO_ENTRIES]);
      }
    }

    /** The store's side of a session that is gone. */
    method DeleteSession(session: string)
      modifies this`tasks
      ensures State() == Detached(old(State()), session)
    {
      tasks := map id | id in tasks ::
                 if tasks[id].session == Some(session) then tasks[id].(session := None) else tasks[id];
    }

    method OnFallbackTimer(id: string, title: Option<string>)
      requires id in failureFallbackTimers
      modifies this
      ensures State() == FallbackFired(old(State()), id, title)
    {
      failureFallbackTimers := failureFallbackTimers - {id};
      if id !in tasks || tasks[id].session.None? || !tasks[id].failed || id in failureFeedTaskIds {
        return;
      }
      failureFallbackNotifiedTaskIds := failureFallbackNotifiedTaskIds + {id};
      ghost var ledger := LedgerOf(record, id);
      ledger := ledger.(fired := ledger.fired + 1, requested := ledger.requested + 1);
      record := record.(ledgers := record.ledgers[id := ledger]);
      ScheduleStatusPush(Failure, tasks[id].session.value, title, None);
    }

    method OnStatusTimer(session: string) returns (push: Option<Request>)
      modifies this
      ensures State() == StatusFlushed(old(State()), session)
      ensures push == if session in old(statusPushes) then Some(old(statusPushes)[session]) else None
    {
      if session !in statusPushes {
        return None;
      }
      push := Some(statusPushes[session]);
      ghost var requests := if session in record.merged then record.merged[session] else [];
      record := record.(merged := record.merged - {session}, sent := record.sent + [(push.value, requests)]);
      statusPushes := statusPushes - {session};
    }
  }
}
