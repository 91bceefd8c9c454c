/** The snapshots a Bridge publishes on one connection and the replica a phone keeps
    of them: whole snapshots, and differences to the snapshot before. */
module SnapshotSync {
  import opened JsonValues
  import opened Keys

  type Object = map<string, Json>

  /** A field is None when it is missing or of another type. Arrays whose order and
      repetitions nothing depends on are sets. */
  datatype Patch = Patch(
    key: Option<string>, upsert: Option<seq<Json>>, remove: Option<set<string>>, order: Option<seq<string>>)

  datatype Envelope =
    | Full(snapshot: Option<Object>, revision: Option<string>, offersDelta: bool)
    | Delta(hostId: Option<string>, base: Option<string>, revision: Option<string>, replace: Option<Object>,
            collections: Option<map<string, Patch>>, removed: Option<set<string>>)
    | Other
    | Unreadable

  datatype Outcome = Message(envelope: Envelope, negotiateDelta: bool) | Resync

  datatype Replica = Replica(snapshot: Option<Object>, revision: Option<string>, negotiated: bool)

  datatype Delivery = Delivery(enabled: bool, revision: nat, previous: Option<Json>)

  const EMPTY := Replica(None, None, false)
  const UNSENT := Delivery(false, 0, None)

  function Decimal(n: nat): string {
    if n < 10 then ["0123456789"[n]] else Decimal(n / 10) + ["0123456789"[n % 10]]
  }

  function Field(value: Json, name: string): Json {
    if value.Obj? && name in value.fields then value.fields[name] else Null
  }

  function AsText(value: Json): Option<string> {
    if value.Str? then Some(value.s) else None
  }

  function HostId(snapshot: Json): Json {
    Field(Field(snapshot, "host"), "id")
  }

  function CollectionKey(name: string): Option<string> {
    match name
    case "projects" | "sessions" | "posts" | "materials" | "tasks" | "commands" | "workspaces" | "cards" => Some("id")
    case "actions" => Some("actionId")
    case "taskPreferences" => Some("sessionId")
    case _ => None
  }

  // -------------------------------------------------------------- keyed collections

  function IdOf(item: Json, key: string): Option<string> {
    AsText(Field(item, key))
  }

  predicate Keyed(items: seq<Json>, key: string) {
    forall i :: 0 <= i < |items| ==> IdOf(items[i], key).Some?
  }

  function Ids(items: seq<Json>, key: string): (ids: seq<string>)
    requires Keyed(items, key)
    ensures |ids| == |items| && forall i :: 0 <= i < |ids| ==> ids[i] == IdOf(items[i], key).value
  {
    seq(|items|, i requires 0 <= i < |items| => IdOf(items[i], key).value)
  }

  predicate Distinct(ids: seq<string>) {
    forall i, j :: 0 <= i < j < |ids| ==> ids[i] != ids[j]
  }

  /** The items by id; a later one replaces an earlier one. */
  function Items(items: seq<Json>, key: string): map<string, Json>
    requires Keyed(items, key)
  {
    if items == [] then map[]
    else
      var last := items[|items| - 1];
      Items(items[..|items| - 1], key)[IdOf(last, key).value := last]
  }

  // -------------------------------------------------------------------- the replica

  /** All items in the given order, which names each of them once. */
  function Ordered(items: map<string, Json>, order: seq<string>): Option<seq<Json>> {
    if Distinct(order) && |items| == |order| && forall id :: id in order ==> id in items
    then Some(seq(|order|, i requires 0 <= i < |order| && order[i] in items => items[order[i]]))
    else None
  }

  function Applied(earlier: Json, patch: Patch, key: string): Option<seq<Json>> {
    if patch.key != Some(key) || patch.upsert.None? || patch.remove.None? || patch.order.None? then None
    else if !earlier.Arr? || !Keyed(earlier.items, key) || !Keyed(patch.upsert.value, key) then None
    else
      var items := Items(earlier.items, key) - patch.remove.value + Items(patch.upsert.value, key);
      Ordered(items, patch.order.value)
  }

  function AppliedAt(o: Object, name: string, patch: Patch): Option<seq<Json>> {
    if CollectionKey(name).None? || name !in o then None else Applied(o[name], patch, CollectionKey(name).value)
  }

  /** The collections among `names` patched. */
  function PatchedOn(o: Object, collections: map<string, Patch>, names: set<string>): Object {
    map name | name in o ::
      if name in names && name in collections && AppliedAt(o, name, collections[name]).Some?
      then Arr(AppliedAt(o, name, collections[name]).value) else o[name]
  }

  predicate AllApply(o: Object, collections: map<string, Patch>, names: set<string>) {
    forall name :: name in names && name in collections ==> AppliedAt(o, name, collections[name]).Some?
  }

  /** Each collection is patched on its own, in any order, and all of them or none. */
  function Patched(o: Object, collections: map<string, Patch>): Option<Object> {
    if AllApply(o, collections, collections.Keys) then Some(PatchedOn(o, collections, collections.Keys)) else None
  }

  function Rebuilt(r: Replica, hostId: string, delta: Envelope): Option<Object>
    requires delta.Delta?
  {
    if r.snapshot.None? || r.revision.None? || delta.hostId != Some(hostId) || delta.base != r.revision then None
    else if delta.revision.None? || delta.revision == r.revision then None
    else if delta.replace.None? || delta.collections.None? || delta.removed.None? then None
    else
      var next := Patched(r.snapshot.value - delta.removed.value + delta.replace.value, delta.collections.value);
      if next.Some? && HostId(Obj(next.value)) == Str(hostId) then next else None
  }

  function Received(r: Replica, hostId: string, envelope: Envelope): (Replica, Outcome) {
    match envelope
    case Full(snapshot, revision, offersDelta) =>
      if snapshot.None? || HostId(Obj(snapshot.value)) != Str(hostId) then (r, Resync)
      else
        var enable := !r.negotiated && offersDelta;
        (Replica(snapshot, revision, r.negotiated || enable), Message(envelope, enable))
    case Delta(_, _, revision, _, _, _) =>
      var next := Rebuilt(r, hostId, envelope);
      if next.None? then (r, Resync)
      else (r.(snapshot := next, revision := revision), Message(Full(next, None, false), false))
    case Other => (r, Message(envelope, false))
    case Unreadable => (r, Resync)
  }

  // ------------------------------------------------------------------- the delivery

  /** The items of `items` that `before` does not hold as they are. */
  function Upserts(items: seq<Json>, before: map<string, Json>, key: string): (upserts: seq<Json>)
    requires Keyed(items, key)
    ensures Keyed(upserts, key)
  {
    if items == [] then []
    else
      var last := items[|items| - 1];
      var id := IdOf(last, key).value;
      Upserts(items[..|items| - 1], before, key) + if id in before && before[id] == last then [] else [last]
  }

  function PatchOf(earlier: seq<Json>, items: seq<Json>, key: string): Patch
    requires Keyed(earlier, key) && Keyed(items, key)
  {
    var before, after := Items(earlier, key), Items(items, key);
    Patch(Some(key), Some(Upserts(items, before, key)), Some(before.Keys - after.Keys), Some(Ids(items, key)))
  }

  predicate Changed(before: Object, after: Object, name: string) {
    name in after && !(name in before && before[name] == after[name])
  }

  /** A changed collection goes as a patch, any other changed field as a whole. */
  predicate Patches(before: Object, after: Object, name: string) {
    && Changed(before, after, name) && CollectionKey(name).Some?
    && name in before && before[name].Arr? && after[name].Arr?
  }

  predicate HasIds(before: Object, after: Object, name: string)
    requires Patches(before, after, name)
  {
    var key := CollectionKey(name).value;
    Keyed(before[name].items, key) && Keyed(after[name].items, key)
  }

  /** What goes as a whole among `names`. */
  function Replaced(before: Object, after: Object, names: set<string>): Object {
    map name | name in names && Changed(before, after, name) && !Patches(before, after, name) :: after[name]
  }

  /** What goes as a patch among `names`. */
  function Collected(before: Object, after: Object, names: set<string>): map<string, Patch> {
    map name | name in names && Patches(before, after, name) && HasIds(before, after, name) ::
      PatchOf(before[name].items, after[name].items, CollectionKey(name).value)
  }

  function DeltaOf(before: Object, after: Object, base: string, revision: string): Option<Envelope> {
    if exists name :: name in after && Patches(before, after, name) && !HasIds(before, after, name) then None
    else
      Some(Delta(AsText(HostId(Obj(after))), Some(base), Some(revision), Some(Replaced(before, after, after.Keys)),
        Some(Collected(before, after, after.Keys)), Some(before.Keys - after.Keys)))
  }

  /** `shorter` tells whether the difference takes fewer bytes than the snapshot. */
  function Published(d: Delivery, snapshot: Json, shorter: bool): (Delivery, Envelope) {
    var base, revision := Decimal(d.revision), Decimal(d.revision + 1);
    var full := Full(if snapshot.Obj? then Some(snapshot.fields) else None, Some(revision), true);
    var comparable := d.enabled && d.previous.Some? && HostId(d.previous.value) == HostId(snapshot);
    var delta := if comparable && d.previous.value.Obj? && snapshot.Obj?
                 then DeltaOf(d.previous.value.fields, snapshot.fields, base, revision) else None;
    (Delivery(d.enabled, d.revision + 1, Some(snapshot)), if delta.Some? && shorter then delta.value else full)
  }

  // -------------------------------------------------------------- patches rebuild

  lemma {:induction false} ItemsHaveTheIds(items: seq<Json>, key: string)
    requires Keyed(items, key)
    ensures forall id :: id in Items(items, key) <==> id in Ids(items, key)
  {
    if items != [] {
      var n := |items| - 1;
      ItemsHaveTheIds(items[..n], key);
      assert Ids(items, key) == Ids(items[..n], key) + [IdOf(items[n], key).value];
    }
  }

  /** The sent items by id. */
  function Sent(items: seq<Json>, before: map<string, Json>, key: string): map<string, Json>
    requires Keyed(items, key)
  {
    if items == [] then map[]
    else
      var last := items[|items| - 1];
      var id := IdOf(last, key).value;
      var rest := Sent(items[..|items| - 1], before, key);
      if id in before && before[id] == last then rest else rest[id := last]
  }

  lemma {:induction false} UpsertsAreSent(items: seq<Json>, before: map<string, Json>, key: string)
    requires Keyed(items, key)
    ensures Items(Upserts(items, before, key), key) == Sent(items, before, key)
  {
    if items != [] {
      var n := |items| - 1;
      var rest := Upserts(items[..n], before, key);
      UpsertsAreSent(items[..n], before, key);
      assert (rest + [items[n]])[..|rest|] == rest;
      assert rest + [] == rest;
    }
  }

  lemma {:induction false} SentHasIds(items: seq<Json>, before: map<string, Json>, key: string)
    requires Keyed(items, key)
    ensures forall id :: id in Sent(items, before, key) ==> id in Ids(items, key)
  {
    if items != [] {
      var n := |items| - 1;
      SentHasIds(items[..n], before, key);
      assert Ids(items, key) == Ids(items[..n], key) + [Ids(items, key)[n]];
    }
  }

  /** Without repeated ids an item is sent exactly when it is not held as it is. */
  lemma {:induction false} SentIsWhatChanged(items: seq<Json>, before: map<string, Json>, key: string, i: nat)
    requires Keyed(items, key) && Distinct(Ids(items, key)) && i < |items|
    ensures var id, sent := Ids(items, key)[i], Sent(items, before, key);
            if id in before && before[id] == items[i] then id !in sent else id in sent && sent[id] == items[i]
  {
    var n, ids := |items| - 1, Ids(items, key);
    assert ids == Ids(items[..n], key) + [ids[n]];
    if i < n {
      assert Ids(items[..n], key)[i] == ids[i] != ids[n];
      SentIsWhatChanged(items[..n], before, key, i);
    } else {
      SentHasIds(items[..n], before, key);
    }
  }

  lemma {:induction false} DistinctCount(ids: seq<string>)
    requires Distinct(ids)
    ensures |set id | id in ids| == |ids|
  {
    if ids != [] {
      var n := |ids| - 1;
      DistinctCount(ids[..n]);
      assert (set id | id in ids) == (set id | id in ids[..n]) + {ids[n]};
    }
  }

  /** What the patch leaves of a collection. */
  function Left(earlier: seq<Json>, items: seq<Json>, key: string): map<string, Json>
    requires Keyed(earlier, key) && Keyed(items, key)
  {
    var before := Items(earlier, key);
    before - (before.Keys - Items(items, key).Keys) + Sent(items, before, key)
  }

  lemma LeftHolds(earlier: seq<Json>, items: seq<Json>, key: string, i: nat)
    requires Keyed(earlier, key) && Keyed(items, key) && Distinct(Ids(items, key)) && i < |items|
    ensures Ids(items, key)[i] in Left(earlier, items, key) && Left(earlier, items, key)[Ids(items, key)[i]] == items[i]
  {
    var id := Ids(items, key)[i];
    ItemsHaveTheIds(items, key);
    SentIsWhatChanged(items, Items(earlier, key), key, i);
    assert id in Items(items, key);
  }

  lemma LeftHasTheIds(earlier: seq<Json>, items: seq<Json>, key: string)
    requires Keyed(earlier, key) && Keyed(items, key) && Distinct(Ids(items, key))
    ensures |Left(earlier, items, key)| == |items|
    ensures forall id :: id in Ids(items, key) ==> id in Left(earlier, items, key)
  {
    var left, ids := Left(earlier, items, key), Ids(items, key);
    ItemsHaveTheIds(items, key);
    SentHasIds(items, Items(earlier, key), key);
    forall id | id in ids ensures id in left {
      var i :| 0 <= i < |ids| && ids[i] == id;
      LeftHolds(earlier, items, key, i);
    }
    DistinctCount(ids);
    assert left.Keys == set id | id in ids;
    assert |left| == |left.Keys|;
  }

  lemma OrderedIs(left: map<string, Json>, order: seq<string>, items: seq<Json>)
    requires Distinct(order) && |left| == |order| == |items|
    requires forall i :: 0 <= i < |items| ==> order[i] in left && left[order[i]] == items[i]
    ensures Ordered(left, order) == Some(items)
  {
    assert Ordered(left, order).Some?;
    assert Ordered(left, order).value == items;
  }

  /** Applying the difference of two collections to the first gives the second, in
      its order, if and only if no id repeats in it; otherwise it is refused. */
  lemma PatchRebuildsExactlyWhen(earlier: seq<Json>, items: seq<Json>, key: string)
    requires Keyed(earlier, key) && Keyed(items, key)
    ensures Applied(Arr(earlier), PatchOf(earlier, items, key), key) ==
            if Distinct(Ids(items, key)) then Some(items) else None
  {
    var left, order := Left(earlier, items, key), Ids(items, key);
    UpsertsAreSent(items, Items(earlier, key), key);
    assert Applied(Arr(earlier), PatchOf(earlier, items, key), key) == Ordered(left, order);
    if Distinct(order) {
      LeftHasTheIds(earlier, items, key);
      forall i: nat | i < |items| ensures order[i] in left && left[order[i]] == items[i] {
        LeftHolds(earlier, items, key, i);
      }
      OrderedIs(left, order, items);
    }
  }

  // -------------------------------------------------------- differences rebuild

  predicate NoRepeats(before: Object, after: Object) {
    forall name :: name in after && Patches(before, after, name) && HasIds(before, after, name) ==>
      Distinct(Ids(after[name].items, CollectionKey(name).value))
  }

  /** The fields that a difference carries as a whole, put in place. */
  function Replacing(before: Object, after: Object): Object {
    before - (before.Keys - after.Keys) + Replaced(before, after, after.Keys)
  }

  lemma FieldIsReplaced(before: Object, after: Object, name: string)
    ensures name in Replacing(before, after) <==> name in after
    ensures name in after ==>
      Replacing(before, after)[name] == if Patches(before, after, name) then before[name] else after[name]
  {
  }

  lemma CollectionIsRebuilt(before: Object, after: Object, name: string)
    requires name in after && Patches(before, after, name) && HasIds(before, after, name)
    ensures var key := CollectionKey(name).value;
            AppliedAt(Replacing(before, after), name, PatchOf(before[name].items, after[name].items, key)) ==
            if Distinct(Ids(after[name].items, key)) then Some(after[name].items) else None
  {
    FieldIsReplaced(before, after, name);
    PatchRebuildsExactlyWhen(before[name].items, after[name].items, CollectionKey(name).value);
  }

  /** Patching what the difference leaves gives the snapshot it was taken of, if and
      only if no changed collection repeats an id. */
  lemma FieldsAreRebuilt(before: Object, after: Object, base: string, revision: string)
    requires DeltaOf(before, after, base, revision).Some?
    ensures var delta := DeltaOf(before, after, base, revision).value;
            Patched(Replacing(before, after), delta.collections.value) ==
            if NoRepeats(before, after) then Some(after) else None
  {
    var collections := DeltaOf(before, after, base, revision).value.collections.value;
    var o := Replacing(before, after);
    forall name | name in collections
      ensures AppliedAt(o, name, collections[name]) ==
              if Distinct(Ids(after[name].items, CollectionKey(name).value)) then Some(after[name].items) else None
    {
      CollectionIsRebuilt(before, after, name);
    }
    if NoRepeats(before, after) {
      forall name ensures name in o <==> name in after {
        FieldIsReplaced(before, after, name);
      }
      var patched := Patched(o, collections);
      assert patched.Some?;
      forall name | name in after ensures patched.value[name] == after[name] {
        FieldIsReplaced(before, after, name);
      }
      assert patched.value == after;
    }
  }

  /** A replica that holds the snapshot before rebuilds the snapshot after it, exactly
      when that is one of its host and repeats no id in a changed collection. */
  lemma DeltaRebuildsExactlyWhen(r: Replica, hostId: string, before: Object, after: Object, base: string,
                                 revision: string)
    requires DeltaOf(before, after, base, revision).Some? && base != revision
    requires r.snapshot == Some(before) && r.revision == Some(base)
    ensures Rebuilt(r, hostId, DeltaOf(before, after, base, revision).value) ==
            if HostId(Obj(after)) == Str(hostId) && NoRepeats(before, after) then Some(after) else None
  {
    FieldsAreRebuilt(before, after, base, revision);
    var delta := DeltaOf(before, after, base, revision).value;
    assert before - delta.removed.value + delta.replace.value == Replacing(before, after);
  }

  // ------------------------------------------------------------------------- runs

  /** A connection: what is published is received in order, and a `snapshot.request`
      resets the delivery. Requests may come at any time. */
  datatype Event = Publish(snapshot: Json, shorter: bool) | Reset(enabled: bool)

  datatype Connection = Connection(delivery: Delivery, replica: Replica)

  const FRESH := Connection(UNSENT, EMPTY)

  function OutcomeOf(hostId: string, c: Connection, e: Event): Outcome
    requires e.Publish?
  {
    Received(c.replica, hostId, Published(c.delivery, e.snapshot, e.shorter).1).1
  }

  function Step(hostId: string, c: Connection, e: Event): Connection {
    match e
    case Publish(snapshot, shorter) =>
      var sent := Published(c.delivery, snapshot, shorter);
      Connection(sent.0, Received(c.replica, hostId, sent.1).0)
    case Reset(enabled) => c.(delivery := c.delivery.(enabled := enabled, previous := None))
  }

  function Run(hostId: string, events: seq<Event>): Connection {
    if events == [] then FRESH
    else Step(hostId, Run(hostId, events[..|events| - 1]), events[|events| - 1])
  }

  /** Whether the last published snapshot was accepted. */
  predicate InStep(hostId: string, events: seq<Event>) {
    events != [] &&
    var earlier, last := events[..|events| - 1], events[|events| - 1];
    if last.Publish? then OutcomeOf(hostId, Run(hostId, earlier), last).Message? else InStep(hostId, earlier)
  }

  /** The snapshot that was published last among those that were accepted. */
  function LastAccepted(hostId: string, events: seq<Event>): Option<Json> {
    if events == [] then None
    else
      var earlier, last := events[..|events| - 1], events[|events| - 1];
      if last.Publish? && OutcomeOf(hostId, Run(hostId, earlier), last).Message? then Some(last.snapshot)
      else LastAccepted(hostId, earlier)
  }

  /** A guard on what is published, before it is. */
  predicate Acceptable(hostId: string, d: Delivery, inStep: bool, e: Event)
    requires e.Publish?
  {
    && e.snapshot.Obj? && HostId(e.snapshot) == Str(hostId)
    && (Published(d, e.snapshot, e.shorter).1.Delta? ==>
          inStep && d.previous.value.Obj? && NoRepeats(d.previous.value.fields, e.snapshot.fields))
  }

  lemma {:induction false} DecimalIsInjective(m: nat, n: nat)
    requires Decimal(m) == Decimal(n)
    ensures m == n
  {
    if m >= 10 && n >= 10 {
      var a, b := Decimal(m), Decimal(n);
      assert a[..|a| - 1] == Decimal(m / 10) && b[..|b| - 1] == Decimal(n / 10);
      DecimalIsInjective(m / 10, n / 10);
      assert a[|a| - 1] == b[|b| - 1];
    }
  }

  /** The replica's revision is an earlier one than `n`. */
  predicate Behind(r: Replica, n: nat) {
    r.revision.Some? ==> exists k: nat :: k < n && r.revision.value == Decimal(k)
  }

  predicate InSync(c: Connection, inStep: bool) {
    if !inStep then Behind(c.replica, c.delivery.revision)
    else
      && c.replica.snapshot.Some? && c.replica.revision == Some(Decimal(c.delivery.revision))
      && (c.delivery.previous.Some? ==> c.delivery.previous.value == Obj(c.replica.snapshot.value))
  }

  lemma BehindIsNot(r: Replica, n: nat)
    requires Behind(r, n)
    ensures r.revision != Some(Decimal(n))
    ensures Behind(r, n + 1)
  {
    if r.revision.Some? {
      var k: nat :| k < n && r.revision.value == Decimal(k);
      if Decimal(k) == Decimal(n) {
        DecimalIsInjective(k, n);
      }
    }
  }

  lemma RevisionsDiffer(n: nat)
    ensures Decimal(n) != Decimal(n + 1)
  {
    if Decimal(n) == Decimal(n + 1) {
      DecimalIsInjective(n, n + 1);
    }
  }

  /** One publication: accepted exactly when acceptable, and then it is what the
      replica holds and hands on; refused, it leaves the replica as it was. */
  lemma PublicationIsJudged(hostId: string, c: Connection, inStep: bool, e: Event)
    requires e.Publish? && InSync(c, inStep)
    ensures var next, outcome := Step(hostId, c, e), OutcomeOf(hostId, c, e);
            && (outcome.Message? <==> Acceptable(hostId, c.delivery, inStep, e))
            && InSync(next, outcome.Message?)
            && if outcome.Message?
               then next.replica.snapshot == Some(e.snapshot.fields) && outcome.envelope.Full? &&
                    outcome.envelope.snapshot == next.replica.snapshot
               else next.replica == c.replica
  {
    var d := c.delivery;
    RevisionsDiffer(d.revision);
    if !inStep {
      BehindIsNot(c.replica, d.revision);
    } else if Published(d, e.snapshot, e.shorter).1.Delta? {
      DeltaRebuildsExactlyWhen(c.replica, hostId, d.previous.value.fields, e.snapshot.fields,
        Decimal(d.revision), Decimal(d.revision + 1));
    }
  }

  lemma {:induction false} RunIsInSync(hostId: string, events: seq<Event>)
    ensures InSync(Run(hostId, events), InStep(hostId, events))
  {
    if events != [] {
      var earlier, last := events[..|events| - 1], events[|events| - 1];
      RunIsInSync(hostId, earlier);
      if last.Publish? {
        PublicationIsJudged(hostId, Run(hostId, earlier), InStep(hostId, earlier), last);
      }
    }
  }

  /** In every run the replica is exactly the snapshot that was accepted last, whole
      or rebuilt from differences. */
  lemma {:induction false} ReplicaIsTheLastAccepted(hostId: string, events: seq<Event>)
    ensures var kept := Run(hostId, events).replica.snapshot;
            LastAccepted(hostId, events) == if kept.Some? then Some(Obj(kept.value)) else None
  {
    if events != [] {
      var earlier, last := events[..|events| - 1], events[|events| - 1];
      ReplicaIsTheLastAccepted(hostId, earlier);
      RunIsInSync(hostId, earlier);
      if last.Publish? {
        PublicationIsJudged(hostId, Run(hostId, earlier), InStep(hostId, earlier), last);
      }
    }
  }

  /** A resync arises exactly when the snapshot is not one of the replica's host, or
      goes as a difference although the one before was refused or although it repeats
      an id in a changed collection. */
  lemma ResyncsExactlyWhen(hostId: string, events: seq<Event>, e: Event)
    requires e.Publish?
    ensures var c := Run(hostId, events);
            && (OutcomeOf(hostId, c, e).Resync? <==> !Acceptable(hostId, c.delivery, InStep(hostId, events), e))
            && (OutcomeOf(hostId, c, e).Resync? ==> Step(hostId, c, e).replica == c.replica)
  {
    RunIsInSync(hostId, events);
    PublicationIsJudged(hostId, Run(hostId, events), InStep(hostId, events), e);
  }

  /** After a request, whatever went before, the next snapshot of the host is accepted. */
  lemma RequestHeals(hostId: string, events: seq<Event>, enabled: bool, e: Event)
    requires e.Publish? && e.snapshot.Obj? && HostId(e.snapshot) == Str(hostId)
    ensures Run(hostId, events + [Reset(enabled), e]).replica.snapshot == Some(e.snapshot.fields)
  {
    var reset := events + [Reset(enabled)];
    assert reset[..|events|] == events;
    assert (events + [Reset(enabled), e])[..|reset|] == reset;
    RunIsInSync(hostId, reset);
    PublicationIsJudged(hostId, Run(hostId, reset), InStep(hostId, reset), e);
  }

  predicate RepeatsNoId(name: string, value: Json) {
    CollectionKey(name).Some? && value.Arr? && Keyed(value.items, CollectionKey(name).value) ==>
      Distinct(Ids(value.items, CollectionKey(name).value))
  }

  /** A snapshot of the host in which no collection repeats an id. */
  predicate Plain(hostId: string, snapshot: Json) {
    && snapshot.Obj? && HostId(snapshot) == Str(hostId)
    && forall name :: name in snapshot.fields ==> RepeatsNoId(name, snapshot.fields[name])
  }

  function LastPublished(events: seq<Event>): Option<Json> {
    if events == [] then None
    else if events[|events| - 1].Publish? then Some(events[|events| - 1].snapshot)
    else LastPublished(events[..|events| - 1])
  }

  /** While every snapshot is plain none is refused, so that the replica is at every
      moment what was published last, whatever went whole and whatever as a difference. */
  lemma {:induction false} PlainSnapshotsNeverResync(hostId: string, events: seq<Event>)
    requires forall e :: e in events && e.Publish? ==> Plain(hostId, e.snapshot)
    ensures var c, last := Run(hostId, events), LastPublished(events);
            && last == (if c.replica.snapshot.Some? then Some(Obj(c.replica.snapshot.value)) else None)
            && (last.Some? ==> InStep(hostId, events)) && (c.delivery.previous.Some? ==> last.Some?)
  {
    if events != [] {
      var earlier, last := events[..|events| - 1], events[|events| - 1];
      PlainSnapshotsNeverResync(hostId, earlier);
      RunIsInSync(hostId, earlier);
      if last.Publish? {
        assert Plain(hostId, last.snapshot);
        PublicationIsJudged(hostId, Run(hostId, earlier), InStep(hostId, earlier), last);
      }
    }
  }

  // ------------------------------------------------------- whatever is received

  /** The replica after any messages at all, also ones no Bridge would send. */
  function ReceivedAll(hostId: string, messages: seq<Envelope>): Replica {
    if messages == [] then EMPTY
    else Received(ReceivedAll(hostId, messages[..|messages| - 1]), hostId, messages[|messages| - 1]).0
  }

  /** Whatever arrives, the replica never holds the state of another host. */
  lemma {:induction false} NeverAnotherHost(hostId: string, messages: seq<Envelope>)
    ensures var kept := ReceivedAll(hostId, messages).snapshot;
            kept.Some? ==> HostId(Obj(kept.value)) == Str(hostId)
  {
    if messages != [] {
      NeverAnotherHost(hostId, messages[..|messages| - 1]);
    }
  }

  /** A difference is taken only on top of the revision it names, and moves the
      replica to another one; the snapshot handed on is the one then held. */
  lemma AcceptedDifferenceMovesOn(r: Replica, hostId: string, delta: Envelope)
    requires delta.Delta? && Received(r, hostId, delta).1.Message?
    ensures var next := Received(r, hostId, delta);
            && r.revision.Some? && delta.base == r.revision && delta.hostId == Some(hostId)
            && next.0.revision.Some? && next.0.revision == delta.revision && next.0.revision != r.revision
            && next.0.snapshot.Some? && next.1.envelope == Full(next.0.snapshot, None, false)
            && next.0.negotiated == r.negotiated && !next.1.negotiateDelta
  {
  }

  predicate Asks(r: Replica, hostId: string, message: Envelope) {
    var outcome := Received(r, hostId, message).1;
    outcome.Message? && outcome.negotiateDelta
  }

  function TimesAsked(hostId: string, messages: seq<Envelope>): nat {
    if messages == [] then 0
    else
      var earlier, last := messages[..|messages| - 1], messages[|messages| - 1];
      TimesAsked(hostId, earlier) + if Asks(ReceivedAll(hostId, earlier), hostId, last) then 1 else 0
  }

  /** Differences are asked for at most once, whatever arrives. */
  lemma {:induction false} AsksAtMostOnce(hostId: string, messages: seq<Envelope>)
    ensures TimesAsked(hostId, messages) == if ReceivedAll(hostId, messages).negotiated then 1 else 0
  {
    if messages != [] {
      AsksAtMostOnce(hostId, messages[..|messages| - 1]);
    }
  }

  lemma {:induction false} NegotiatedExactlyAfterAccepting(hostId: string, events: seq<Event>)
    ensures Run(hostId, events).replica.negotiated <==> LastAccepted(hostId, events).Some?
  {
    if events != [] {
      var earlier := events[..|events| - 1];
      NegotiatedExactlyAfterAccepting(hostId, earlier);
      ReplicaIsTheLastAccepted(hostId, earlier);
    }
  }

  /** With the Bridge at the other end it is the first accepted snapshot, and no
      other, that makes the phone ask for differences. */
  lemma AsksExactlyAtTheFirstAccepted(hostId: string, events: seq<Event>, e: Event)
    requires e.Publish?
    ensures var c := Run(hostId, events);
            Asks(c.replica, hostId, Published(c.delivery, e.snapshot, e.shorter).1) <==>
            OutcomeOf(hostId, c, e).Message? && LastAccepted(hostId, events).None?
  {
    NegotiatedExactlyAfterAccepting(hostId, events);
    ReplicaIsTheLastAccepted(hostId, events);
  }

  /** A publication goes as a difference exactly when differences were asked for since
      the connection began, a snapshot of the same host went before it, every patched
      item has an id, and it is shorter so. */
  lemma GoesAsDifferenceExactlyWhen(d: Delivery, snapshot: Json, shorter: bool)
    ensures Published(d, snapshot, shorter).1.Delta? <==>
            && shorter && d.enabled && d.previous.Some? && HostId(d.previous.value) == HostId(snapshot)
            && d.previous.value.Obj? && snapshot.Obj?
            && forall name :: name in snapshot.fields && Patches(d.previous.value.fields, snapshot.fields, name) ==>
                 HasIds(d.previous.value.fields, snapshot.fields, name)
    ensures Published(d, snapshot, shorter).0 == Delivery(d.enabled, d.revision + 1, Some(snapshot))
  {
  }

  const SAMPLE_HOST := "mac"

  /** A snapshot with `n` tasks, all of one id. */
  function Sample(n: nat): Object {
    map["host" := Obj(map["id" := Str(SAMPLE_HOST)]), "tasks" := Arr(seq(n, _ => Obj(map["id" := Str("a")])))]
  }

  lemma SampleIsPatched(n: nat)
    ensures HostId(Obj(Sample(n))) == Str(SAMPLE_HOST) && Keyed(Sample(n)["tasks"].items, "id")
    ensures n > 0 ==> Patches(Sample(0), Sample(n), "tasks")
    ensures DeltaOf(Sample(0), Sample(n), "1", "2").Some?
    ensures n > 1 ==> !NoRepeats(Sample(0), Sample(n))
  {
    assert forall name :: name in Sample(n) ==> name == "host" || name == "tasks";
    assert CollectionKey("host").None? && CollectionKey("tasks") == Some("id");
    var items := Sample(n)["tasks"].items;
    if n > 0 {
      assert items != [] && Sample(0)["tasks"] != Sample(n)["tasks"];
    }
    if n > 1 {
      assert Ids(items, "id")[0] == Ids(items, "id")[1];
      assert HasIds(Sample(0), Sample(n), "tasks");
    }
  }

  /** Without any gap: a collection that repeats an id is refused as a difference. */
  lemma RepeatedIdIsRefused()
    ensures var before := [Reset(true), Publish(Obj(Sample(0)), true)];
            && InStep(SAMPLE_HOST, before)
            && OutcomeOf(SAMPLE_HOST, Run(SAMPLE_HOST, before), Publish(Obj(Sample(2)), true)).Resync?
  {
    var reset, first, second := [Reset(true)], Publish(Obj(Sample(0)), true), Publish(Obj(Sample(2)), true);
    var before := reset + [first];
    SampleIsPatched(0);
    SampleIsPatched(2);
    assert reset[..0] == [] && before[..1] == reset;
    ResyncsExactlyWhen(SAMPLE_HOST, reset, first);
    ResyncsExactlyWhen(SAMPLE_HOST, before, second);
    assert Decimal(1) == "1" && Decimal(2) == "2";
  }

  // ------------------------------------------------------------------- the objects

  lemma UnpatchedIsKept(o: Object, collections: map<string, Patch>, names: set<string>, name: string)
    requires name !in names
    ensures name in PatchedOn(o, collections, names) <==> name in o
    ensures name in o ==> PatchedOn(o, collections, names)[name] == o[name]
  {
  }

  lemma PatchedOneMore(o: Object, collections: map<string, Patch>, names: set<string>, name: string, items: seq<Json>)
    requires name in collections && AppliedAt(o, name, collections[name]) == Some(items)
    ensures PatchedOn(o, collections, names + {name}) == PatchedOn(o, collections, names)[name := Arr(items)]
  {
    var patched, more := PatchedOn(o, collections, names), PatchedOn(o, collections, names + {name});
    assert more.Keys == patched.Keys == o.Keys;
    forall other | other in o ensures more[other] == patched[name := Arr(items)][other] {
    }
  }

  lemma DifferenceOneMore(before: Object, after: Object, names: set<string>, name: string)
    requires name in after && name !in names
    ensures Replaced(before, after, names + {name}) ==
            if Changed(before, after, name) && !Patches(before, after, name)
            then Replaced(before, after, names)[name := after[name]] else Replaced(before, after, names)
    ensures Collected(before, after, names + {name}) ==
            if Patches(before, after, name) && HasIds(before, after, name)
            then Collected(before, after, names)[name :=
              PatchOf(before[name].items, after[name].items, CollectionKey(name).value)]
            else Collected(before, after, names)
  {
  }

  /** The phone's side of one connection. */
  class SnapshotReplica {
    var snapshot: Option<Object>
    var revision: Option<string>
    var negotiated: bool

    ghost function State(): Replica
      reads this
    {
      Replica(snapshot, revision, negotiated)
    }

    constructor ()
      ensures State() == EMPTY
    {
      snapshot, revision, negotiated := None, None, false;
    }

    /** The items by id, or None when one has no id. */
    static method Collect(items: seq<Json>, key: string) returns (byId: Option<map<string, Json>>)
      ensures byId == if Keyed(items, key) then Some(Items(items, key)) else None
    {
      var collected: map<string, Json> := map[];
      for i := 0 to |items|
        invariant Keyed(items[..i], key) && collected == Items(items[..i], key)
      {
        var id := IdOf(items[i], key);
        if id.None? {
          return None;
        }
        collected := collected[id.value := items[i]];
        assert items[..i + 1][..i] == items[..i];
      }
      assert items[..|items|] == items;
      byId := Some(collected);
    }

    static method Order(byId: map<string, Json>, order: seq<string>) returns (items: Option<seq<Json>>)
      ensures items == Ordered(byId, order)
    {
      if !Distinct(order) || |byId| != |order| || exists id :: id in order && id !in byId {
        return None;
      }
      items := Some(seq(|order|, i requires 0 <= i < |order| && order[i] in byId => byId[order[i]]));
    }

    static method ApplyPatch(earlier: Json, patch: Patch, key: string) returns (items: Option<seq<Json>>)
      ensures items == Applied(earlier, patch, key)
    {
      if patch.key != Some(key) || !earlier.Arr? || patch.upsert.None? || patch.remove.None? || patch.order.None? {
        return None;
      }
      var held := Collect(earlier.items, key);
      var upserts := Collect(patch.upsert.value, key);
      if held.None? || upserts.None? {
        return None;
      }
      items := Order(held.value - patch.remove.value + upserts.value, patch.order.value);
    }

    static method ApplyAt(o: Object, name: string, patch: Patch) returns (items: Option<seq<Json>>)
      ensures items == AppliedAt(o, name, patch)
    {
      var key := CollectionKey(name);
      if key.None? || name !in o {
        return None;
      }
      items := ApplyPatch(o[name], patch, key.value);
    }

    /** Patches the collections in any order, and stops at the first refusal. */
    static method ApplyCollections(o: Object, collections: map<string, Patch>) returns (next: Option<Object>)
      ensures next == Patched(o, collections)
    {
      var patched, done, remaining := o, {}, collections.Keys;
      while remaining != {}
        invariant done + remaining == collections.Keys && done !! remaining && AllApply(o, collections, done)
        invariant patched == PatchedOn(o, collections, done)
        decreases remaining
      {
        var name :| name in remaining;
        UnpatchedIsKept(o, collections, done, name);
        var items := ApplyAt(patched, name, collections[name]);
        assert items == AppliedAt(o, name, collections[name]);
        if items.None? {
          assert !AllApply(o, collections, collections.Keys);
          return None;
        }
        PatchedOneMore(o, collections, done, name, items.value);
        patched, done, remaining := patched[name := Arr(items.value)], done + {name}, remaining - {name};
      }
      assert done == collections.Keys;
      next := Some(patched);
    }

    method Receive(envelope: Envelope, hostId: string) returns (outcome: Outcome)
      modifies this
      ensures (State(), outcome) == Received(old(State()), hostId, envelope)
    {
      match envelope
      case Unreadable => outcome := Resync;
      case Other => outcome := Message(envelope, false);
      case Full(full, newRevision, offersDelta) =>
        if full.None? || HostId(Obj(full.value)) != Str(hostId) {
          return Resync;
        }
        snapshot, revision := full, newRevision;
        var enable := !negotiated && offersDelta;
        negotiated := negotiated || enable;
        outcome := Message(envelope, enable);
      case Delta(host, base, newRevision, replace, collections, removed) =>
        if snapshot.None? || revision.None? || host != Some(hostId) || base != revision || newRevision.None?
           || newRevision == revision || replace.None? || collections.None? || removed.None? {
          return Resync;
        }
        var next := ApplyCollections(snapshot.value - removed.value + replace.value, collections.value);
        if next.None? || HostId(Obj(next.value)) != Str(hostId) {
          return Resync;
        }
        snapshot, revision := next, newRevision;
        outcome := Message(Full(next, None, false), false);
    }
  }

  /** The Bridge's side of one connection. */
  class SnapshotDelivery {
    var enabled: bool
    var revision: nat
    var previous: Option<Json>

    ghost function State(): Delivery
      reads this
    {
      Delivery(enabled, revision, previous)
    }

    constructor ()
      ensures State() == UNSENT
    {
      enabled, revision, previous := false, 0, None;
    }

    method Reset(enabled: bool)
      modifies this
      ensures State() == old(State()).(enabled := enabled, previous := None)
    {
      this.enabled, previous := enabled, None;
    }

    /** Each changed field goes as a patch or as a whole; None when an item has no id. */
    static method Difference(before: Object, after: Object, base: string, revision: string)
      returns (delta: Option<Envelope>)
      ensures delta == DeltaOf(before, after, base, revision)
    {
      var replace: Object, collections: map<string, Patch>, remaining := map[], map[], after.Keys;
      while remaining != {}
        invariant remaining <= after.Keys
        invariant replace == Replaced(before, after, after.Keys - remaining)
        invariant collections == Collected(before, after, after.Keys - remaining)
        invariant forall name :: name in after && name !in remaining && Patches(before, after, name) ==>
          HasIds(before, after, name)
        decreases remaining
      {
        var name :| name in remaining;
        if name !in before || before[name] != after[name] {
          var key := CollectionKey(name);
          if key.Some? && name in before && before[name].Arr? && after[name].Arr? {
            if !Keyed(before[name].items, key.value) || !Keyed(after[name].items, key.value) {
              assert Patches(before, after, name);
              return None;
            }
            collections := collections[name := PatchOf(before[name].items, after[name].items, key.value)];
          } else {
            replace := replace[name := after[name]];
          }
        }
        DifferenceOneMore(before, after, after.Keys - remaining, name);
        assert after.Keys - (remaining - {name}) == after.Keys - remaining + {name};
        remaining := remaining - {name};
      }
      assert after.Keys - remaining == after.Keys;
      delta := Some(Delta(AsText(HostId(Obj(after))), Some(base), Some(revision), Some(replace), Some(collections),
        Some(before.Keys - after.Keys)));
    }

    method Message(snapshot: Json, shorter: bool) returns (message: Envelope)
      modifies this
      ensures (State(), message) == Published(old(State()), snapshot, shorter)
    {
      var base := Decimal(revision);
      revision := revision + 1;
      message := Full(if snapshot.Obj? then Some(snapshot.fields) else None, Some(Decimal(revision)), true);
      if enabled && previous.Some? && HostId(previous.value) == HostId(snapshot) {
        if previous.value.Obj? && snapshot.Obj? {
          var delta := Difference(previous.value.fields, snapshot.fields, base, Decimal(revision));
          if delta.Some? && shorter {
            message := delta.value;
          }
        }
      }
      previous := Some(snapshot);
    }
  }
}
