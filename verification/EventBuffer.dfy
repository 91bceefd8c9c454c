/** The phone's bounded timeline of one session: the last 500 events by sequence,
    and the first user instruction in front of them if it is older. */
module EventBuffer {
  import opened Keys

  /** `instruction` is kind "user_instruction". */
  datatype Event = Event(id: string, sequence: int, instruction: bool, payload: string)

  const TIMELINE_LIMIT := 500

  // ------------------------------------------------------------- the specification

  function Remove(events: seq<Event>, id: string): seq<Event> {
    if events == [] then []
    else if events[0].id == id then Remove(events[1..], id)
    else [events[0]] + Remove(events[1..], id)
  }

  function Insert(events: seq<Event>, e: Event): seq<Event> {
    if events == [] || e.sequence < events[0].sequence then [e] + events
    else [events[0]] + Insert(events[1..], e)
  }

  /** `e` takes the place of an earlier event of its id, in order of sequence. */
  function Merge(events: seq<Event>, e: Event): seq<Event> {
    Insert(Remove(events, e.id), e)
  }

  /** The latest event of each id, by sequence. */
  function Canon(history: seq<Event>): seq<Event> {
    if history == [] then [] else Merge(Canon(history[..|history| - 1]), history[|history| - 1])
  }

  function Suffix(events: seq<Event>): seq<Event> {
    if |events| <= TIMELINE_LIMIT then events else events[|events| - TIMELINE_LIMIT..]
  }

  function FirstInstruction(events: seq<Event>): Option<Event> {
    if events == [] then None
    else if events[0].instruction then Some(events[0])
    else FirstInstruction(events[1..])
  }

  predicate HasId(events: seq<Event>, id: string) {
    exists i :: 0 <= i < |events| && events[i].id == id
  }

  function Trim(events: seq<Event>): seq<Event> {
    var kept, first := Suffix(events), FirstInstruction(events);
    if first.Some? && !HasId(kept, first.value.id) then [first.value] + kept else kept
  }

  function BoundedOf(history: seq<Event>): seq<Event> {
    Trim(Canon(history))
  }

  function IndexOf(events: seq<Event>, id: string): (i: nat)
    ensures i <= |events| && (i < |events| ==> events[i].id == id)
    ensures forall k :: 0 <= k < i ==> events[k].id != id
  {
    if events == [] || events[0].id == id then 0 else 1 + IndexOf(events[1..], id)
  }

  /** What an `event.upsert` does before the list is bounded again. */
  function Upsert(events: seq<Event>, e: Event): seq<Event> {
    var i := IndexOf(events, e.id);
    if i < |events| then events[i := e] else events + [e]
  }

  /** The stream: every event is merged into the bounded list it meets. */
  function Stream(buffer: seq<Event>, arrivals: seq<Event>): seq<Event>
    decreases |arrivals|
  {
    if arrivals == [] then buffer else Stream(BoundedOf(Upsert(buffer, arrivals[0])), arrivals[1..])
  }

  /** Ids and sequences name each other, and a redelivery keeps its kind. */
  predicate Compatible(x: Event, y: Event) {
    (x.id == y.id <==> x.sequence == y.sequence) && (x.id == y.id ==> x.instruction == y.instruction)
  }

  ghost predicate Consistent(events: seq<Event>) {
    forall i, j :: 0 <= i < |events| && 0 <= j < |events| ==> Compatible(events[i], events[j])
  }

  ghost predicate Fits(events: seq<Event>, e: Event) {
    forall i :: 0 <= i < |events| ==> Compatible(events[i], e)
  }

  predicate Sorted(events: seq<Event>) {
    forall i, j :: 0 <= i < j < |events| ==> events[i].sequence < events[j].sequence
  }

  // --------------------------------------------------------------- about merging

  lemma {:induction false} RemoveAbsent(events: seq<Event>, id: string)
    requires forall i :: 0 <= i < |events| ==> events[i].id != id
    ensures Remove(events, id) == events
  {
    if events != [] {
      RemoveAbsent(events[1..], id);
    }
  }

  /** Merging into a sorted, compatible list, one element at a time. */
  lemma MergeUnfolds(events: seq<Event>, e: Event)
    requires Sorted(events) && Fits(events, e) && events != []
    ensures Merge(events, e) ==
            if events[0].sequence < e.sequence then [events[0]] + Merge(events[1..], e)
            else if events[0].id == e.id then [e] + events[1..]
            else [e] + events
  {
    var x, rest := events[0], events[1..];
    assert Compatible(x, e);
    if x.sequence < e.sequence {
      assert ([x] + Remove(rest, e.id))[1..] == Remove(rest, e.id);
    } else {
      assert forall i :: 0 <= i < |rest| ==> rest[i] == events[i + 1] && Compatible(events[i + 1], e);
      RemoveAbsent(rest, e.id);
      if rest != [] {
        assert rest[0] == events[1];
      }
    }
  }

  lemma RestIsSorted(events: seq<Event>, e: Event)
    requires Sorted(events) && Fits(events, e) && events != []
    ensures Sorted(events[1..]) && Fits(events[1..], e) && Compatible(events[0], e)
    ensures forall x :: x in events <==> x == events[0] || x in events[1..]
  {
    assert forall i :: 0 <= i < |events[1..]| ==> events[1..][i] == events[i + 1];
  }

  lemma {:induction false} MergeHolds(events: seq<Event>, e: Event)
    requires Sorted(events) && Fits(events, e)
    ensures forall x :: x in Merge(events, e) <==> x == e || (x in events && x.id != e.id)
  {
    if events == [] {
      assert Merge(events, e) == [e];
    } else {
      MergeUnfolds(events, e);
      RestIsSorted(events, e);
      if events[0].sequence < e.sequence {
        MergeHolds(events[1..], e);
      } else {
        assert forall x :: x in events[1..] ==> x.id != e.id;
      }
    }
  }

  lemma {:induction false} MergeKeepsSorted(events: seq<Event>, e: Event)
    requires Sorted(events) && Fits(events, e)
    ensures Sorted(Merge(events, e))
  {
    if events == [] {
      assert Merge(events, e) == [e];
    } else {
      MergeUnfolds(events, e);
      RestIsSorted(events, e);
      if events[0].sequence < e.sequence {
        MergeKeepsSorted(events[1..], e);
        MergeHolds(events[1..], e);
        var merged := Merge(events[1..], e);
        forall i | 0 <= i < |merged| ensures events[0].sequence < merged[i].sequence {
          assert merged[i] in merged;
        }
      }
    }
  }

  lemma PartsAreSorted(older: seq<Event>, newer: seq<Event>, e: Event)
    requires Sorted(older + newer) && Fits(older + newer, e)
    ensures Sorted(older) && Sorted(newer) && Fits(older, e) && Fits(newer, e)
    ensures older != [] && newer != [] ==> older[0].sequence < newer[0].sequence
    ensures older != [] ==> Sorted(older[1..] + newer) && Fits(older[1..] + newer, e)
  {
    var all := older + newer;
    assert forall i :: 0 <= i < |older| ==> older[i] == all[i];
    assert forall i :: 0 <= i < |newer| ==> newer[i] == all[|older| + i];
    if older != [] {
      assert all[1..] == older[1..] + newer;
      assert forall i :: 0 <= i < |all[1..]| ==> all[1..][i] == all[i + 1];
    }
  }

  /** `p` is where `e` belongs. */
  ghost predicate Splits(events: seq<Event>, e: Event, p: nat) {
    && p <= |events| && (forall i :: 0 <= i < p ==> events[i].sequence < e.sequence)
    && (forall i :: p <= i < |events| ==> events[i].sequence >= e.sequence)
  }

  lemma {:induction false} SplitPoint(events: seq<Event>, e: Event) returns (p: nat)
    requires Sorted(events)
    ensures Splits(events, e, p)
  {
    p := 0;
    while p < |events| && events[p].sequence < e.sequence
      invariant p <= |events| && forall i :: 0 <= i < p ==> events[i].sequence < e.sequence
    {
      p := p + 1;
    }
  }

  function After(events: seq<Event>, e: Event, p: nat): nat {
    if p < |events| && events[p].id == e.id then p + 1 else p
  }

  function MergedAt(events: seq<Event>, e: Event, p: nat): seq<Event>
    requires p <= |events|
  {
    events[..p] + [e] + events[After(events, e, p)..]
  }

  lemma MergedInNewer(older: seq<Event>, newer: seq<Event>, e: Event, p: nat)
    requires p <= |newer|
    ensures MergedAt(older + newer, e, |older| + p) == older + MergedAt(newer, e, p)
  {
    var all, n := older + newer, |older|;
    assert all[..n + p] == older + newer[..p];
    assert After(all, e, n + p) == n + After(newer, e, p);
    assert all[n + After(newer, e, p)..] == newer[After(newer, e, p)..];
  }

  lemma MergedInOlder(older: seq<Event>, newer: seq<Event>, e: Event, p: nat)
    requires p <= |older| && (newer != [] ==> newer[0].id != e.id)
    ensures MergedAt(older + newer, e, p) == MergedAt(older, e, p) + newer
  {
    var all := older + newer;
    assert all[..p] == older[..p];
    assert After(all, e, p) == After(older, e, p);
    assert all[After(older, e, p)..] == older[After(older, e, p)..] + newer;
  }

  lemma MergeAtFront(events: seq<Event>, e: Event)
    requires Sorted(events) && Fits(events, e) && Splits(events, e, 0)
    ensures Merge(events, e) == MergedAt(events, e, 0)
  {
    assert events[..0] + [e] == [e];
    if events == [] {
      assert Merge(events, e) == [e];
    } else {
      MergeUnfolds(events, e);
      assert events[0..] == events;
    }
  }

  lemma RestSplits(events: seq<Event>, e: Event, p: nat)
    requires Sorted(events) && Fits(events, e) && Splits(events, e, p) && p > 0
    ensures Sorted(events[1..]) && Fits(events[1..], e) && Splits(events[1..], e, p - 1) &&
            events[0].sequence < e.sequence
  {
    assert forall i :: 0 <= i < |events[1..]| ==> events[1..][i] == events[i + 1];
  }

  lemma MergedAtRest(events: seq<Event>, e: Event, p: nat)
    requires 0 < p <= |events|
    ensures MergedAt(events, e, p) == [events[0]] + MergedAt(events[1..], e, p - 1)
  {
    MergedInNewer([events[0]], events[1..], e, p - 1);
    assert events == [events[0]] + events[1..];
  }

  /** Merging puts `e` there, over the event of its id if there is one. */
  lemma {:induction false} MergeAt(events: seq<Event>, e: Event, p: nat)
    requires Sorted(events) && Fits(events, e) && Splits(events, e, p)
    ensures Merge(events, e) == MergedAt(events, e, p)
    decreases |events|
  {
    if p == 0 {
      MergeAtFront(events, e);
    } else {
      RestSplits(events, e, p);
      MergeAt(events[1..], e, p - 1);
      MergedAtRest(events, e, p);
      assert Merge(events, e) == [events[0]] + Merge(events[1..], e) by {
        MergeUnfolds(events, e);
      }
    }
  }

  lemma SplitsInNewer(older: seq<Event>, newer: seq<Event>, e: Event, p: nat)
    requires Sorted(older + newer) && newer != [] && newer[0].sequence <= e.sequence && Splits(newer, e, p)
    ensures Splits(older + newer, e, |older| + p)
  {
    var all, n := older + newer, |older|;
    assert all[n] == newer[0];
    assert forall i :: 0 <= i < n ==> all[i].sequence < all[n].sequence;
    forall i | 0 <= i < |all|
      ensures if i < n + p then all[i].sequence < e.sequence else all[i].sequence >= e.sequence
    {
      if i >= n {
        assert all[i] == newer[i - n];
      } else if p == 0 {
        assert newer[0].sequence >= e.sequence;
      }
    }
  }

  lemma SplitsInOlder(older: seq<Event>, newer: seq<Event>, e: Event, p: nat)
    requires Sorted(older + newer) && newer != [] && newer[0].sequence > e.sequence && Splits(older, e, p)
    ensures Splits(older + newer, e, p)
  {
    var all, n := older + newer, |older|;
    assert all[n] == newer[0];
    forall i | p <= i < |all| ensures all[i].sequence >= e.sequence {
      assert i < n ==> all[i] == older[i];
    }
    assert forall i :: 0 <= i < p ==> all[i] == older[i];
  }

  lemma MergeIntoNewer(older: seq<Event>, newer: seq<Event>, e: Event)
    requires Sorted(older + newer) && Fits(older + newer, e) && newer != [] && newer[0].sequence <= e.sequence
    ensures Merge(older + newer, e) == older + Merge(newer, e)
  {
    PartsAreSorted(older, newer, e);
    var p := SplitPoint(newer, e);
    MergeAt(newer, e, p);
    SplitsInNewer(older, newer, e, p);
    MergeAt(older + newer, e, |older| + p);
    MergedInNewer(older, newer, e, p);
  }

  lemma MergeIntoOlder(older: seq<Event>, newer: seq<Event>, e: Event)
    requires Sorted(older + newer) && Fits(older + newer, e) && newer != [] && newer[0].sequence > e.sequence
    ensures Merge(older + newer, e) == Merge(older, e) + newer
  {
    PartsAreSorted(older, newer, e);
    var p := SplitPoint(older, e);
    MergeAt(older, e, p);
    SplitsInOlder(older, newer, e, p);
    MergeAt(older + newer, e, p);
    assert Compatible(newer[0], e);
    MergedInOlder(older, newer, e, p);
  }

  lemma MergeGrows(events: seq<Event>, e: Event)
    requires Sorted(events) && Fits(events, e)
    ensures |events| <= |Merge(events, e)| <= |events| + 1
  {
    var p := SplitPoint(events, e);
    MergeAt(events, e, p);
  }

  function FirstWith(first: Option<Event>, e: Event): Option<Event> {
    if e.instruction && (first.None? || e.sequence <= first.value.sequence) then Some(e) else first
  }

  lemma {:induction false} FirstOfMerge(events: seq<Event>, e: Event)
    requires Sorted(events) && Fits(events, e)
    ensures FirstInstruction(Merge(events, e)) == FirstWith(FirstInstruction(events), e)
  {
    if events == [] {
      assert Merge(events, e) == [e];
    } else {
      MergeUnfolds(events, e);
      var rest := events[1..];
      assert forall i :: 0 <= i < |rest| ==> rest[i] == events[i + 1];
      assert Compatible(events[0], e);
      FirstIsInside(events);
      if events[0].sequence < e.sequence {
        FirstOfMerge(rest, e);
        assert ([events[0]] + Merge(rest, e))[1..] == Merge(rest, e);
      } else {
        assert ([e] + rest)[1..] == rest && ([e] + events)[1..] == events;
      }
    }
  }

  lemma {:induction false} FirstIsInside(events: seq<Event>)
    ensures var first := FirstInstruction(events);
            && (first.Some? ==> first.value in events && first.value.instruction)
            && (first.Some? ==>
                  forall i ::
                    0 <= i < |events| && events[i].instruction ==> Sorted(events) ==>
                      first.value.sequence <= events[i].sequence)
            && (first.None? ==> forall i :: 0 <= i < |events| ==> !events[i].instruction)
  {
    if events != [] && !events[0].instruction {
      var rest := events[1..];
      FirstIsInside(rest);
      assert Sorted(events) ==> Sorted(rest);
      assert forall i :: 1 <= i < |events| ==> events[i] == rest[i - 1];
    }
  }

  // ---------------------------------------------------------- a list that will do

  /** `kept` has all that bounding `full` will ever look at. */
  predicate Covers(kept: seq<Event>, full: seq<Event>) {
    && Suffix(kept) == Suffix(full) && FirstInstruction(kept) == FirstInstruction(full)
    && if |full| <= TIMELINE_LIMIT then kept == full else |kept| >= TIMELINE_LIMIT
  }

  /** The end of a long list after a merge is told by its end before. */
  lemma SuffixOfMerge(events: seq<Event>, e: Event)
    requires Sorted(events) && Fits(events, e) && |events| >= TIMELINE_LIMIT
    ensures var newer := Suffix(events);
            Suffix(Merge(events, e)) == if newer[0].sequence <= e.sequence then Suffix(Merge(newer, e)) else newer
  {
    var newer := Suffix(events);
    var older := events[..|events| - TIMELINE_LIMIT];
    assert events == older + newer;
    PartsAreSorted(older, newer, e);
    MergeGrows(newer, e);
    if newer[0].sequence <= e.sequence {
      MergeIntoNewer(older, newer, e);
      SuffixOfJoined(older, Merge(newer, e));
    } else {
      MergeIntoOlder(older, newer, e);
      SuffixOfJoined(Merge(older, e), newer);
    }
  }

  lemma SuffixOfJoined(a: seq<Event>, b: seq<Event>)
    requires |b| >= TIMELINE_LIMIT
    ensures Suffix(a + b) == Suffix(b)
  {
  }

  lemma MergeKeepsCover(kept: seq<Event>, full: seq<Event>, e: Event)
    requires Covers(kept, full) && Sorted(kept) && Sorted(full) && Fits(kept, e) && Fits(full, e)
    ensures Covers(Merge(kept, e), Merge(full, e))
  {
    FirstOfMerge(kept, e);
    FirstOfMerge(full, e);
    if |full| > TIMELINE_LIMIT {
      SuffixOfMerge(kept, e);
      SuffixOfMerge(full, e);
      MergeGrows(kept, e);
      MergeGrows(full, e);
    }
  }

  lemma {:induction false} FirstInTwoParts(older: seq<Event>, newer: seq<Event>)
    ensures FirstInstruction(older + newer) ==
            if FirstInstruction(older).Some? then FirstInstruction(older) else FirstInstruction(newer)
  {
    if older == [] {
      assert older + newer == newer;
    } else {
      FirstInTwoParts(older[1..], newer);
      assert (older + newer)[1..] == older[1..] + newer;
    }
  }

  lemma FirstIsElsewhere(older: seq<Event>, newer: seq<Event>)
    requires Sorted(older + newer) && Consistent(older + newer) && FirstInstruction(older).Some?
    ensures var first := FirstInstruction(older).value;
            !HasId(newer, first.id) && Sorted([first] + newer) && first in older + newer
  {
    var all, first := older + newer, FirstInstruction(older).value;
    FirstIsInside(older);
    var k :| 0 <= k < |older| && older[k] == first;
    assert all[k] == first;
    forall i | 0 <= i < |newer| ensures newer[i].id != first.id && first.sequence < newer[i].sequence {
      assert all[|older| + i] == newer[i] && Compatible(all[k], all[|older| + i]);
    }
    forall i, j | 0 <= i < j < |[first] + newer| ensures ([first] + newer)[i].sequence < ([first] + newer)[j].sequence {
      assert i > 0 ==> all[|older| + i - 1] == newer[i - 1] && all[|older| + j - 1] == newer[j - 1];
    }
  }

  lemma FirstIsHere(events: seq<Event>)
    requires FirstInstruction(events).Some?
    ensures HasId(events, FirstInstruction(events).value.id)
  {
    FirstIsInside(events);
    var k :| 0 <= k < |events| && events[k] == FirstInstruction(events).value;
  }

  lemma SuffixSplits(events: seq<Event>) returns (older: seq<Event>, newer: seq<Event>)
    ensures events == older + newer && newer == Suffix(events)
    ensures if |events| <= TIMELINE_LIMIT then older == [] else |newer| == TIMELINE_LIMIT
  {
    newer := Suffix(events);
    older := events[..|events| - |newer|];
  }

  lemma TrimIs(events: seq<Event>, older: seq<Event>, newer: seq<Event>)
    requires Sorted(events) && Consistent(events) && events == older + newer && newer == Suffix(events)
    ensures Trim(events) == if FirstInstruction(older).Some? then [FirstInstruction(older).value] + newer else newer
  {
    FirstInTwoParts(older, newer);
    if FirstInstruction(older).Some? {
      FirstIsElsewhere(older, newer);
    } else if FirstInstruction(newer).Some? {
      FirstIsHere(newer);
    }
  }

  lemma PartsCover(older: seq<Event>, newer: seq<Event>)
    requires newer == Suffix(older + newer)
    requires if |older + newer| <= TIMELINE_LIMIT then older == [] else |newer| == TIMELINE_LIMIT
    ensures FirstInstruction(older).None? ==> Covers(newer, older + newer)
    ensures FirstInstruction(older).Some? ==> Covers([FirstInstruction(older).value] + newer, older + newer)
  {
    FirstInTwoParts(older, newer);
    if FirstInstruction(older).Some? {
      FirstIsInside(older);
      var first := FirstInstruction(older).value;
      assert ([first] + newer)[1..] == newer;
    }
  }

  lemma TrimCovers(events: seq<Event>)
    requires Sorted(events) && Consistent(events)
    ensures Covers(Trim(events), events) && Sorted(Trim(events))
    ensures forall x :: x in Trim(events) ==> x in events
  {
    var older, newer := SuffixSplits(events);
    TrimIs(events, older, newer);
    PartsCover(older, newer);
    if FirstInstruction(older).Some? {
      FirstIsElsewhere(older, newer);
    } else {
      assert forall i :: 0 <= i < |newer| ==> newer[i] == events[|older| + i];
    }
  }

  // ----------------------------------------------------- about the whole history

  /** `x` is in the history and nothing later has its id. */
  ghost predicate IsLatest(history: seq<Event>, x: Event) {
    exists i :: 0 <= i < |history| && history[i] == x && forall j :: i < j < |history| ==> history[j].id != x.id
  }

  lemma LatestOfNext(history: seq<Event>, e: Event, x: Event)
    ensures IsLatest(history + [e], x) <==> x == e || (IsLatest(history, x) && x.id != e.id)
  {
    var longer, n := history + [e], |history|;
    if IsLatest(longer, x) && x != e {
      var i :| 0 <= i < |longer| && longer[i] == x && forall j :: i < j < |longer| ==> longer[j].id != x.id;
      assert longer[n] == e && history[i] == x;
      assert forall j :: i < j < n ==> history[j] == longer[j];
    }
    if IsLatest(history, x) && x.id != e.id {
      var i :| 0 <= i < n && history[i] == x && forall j :: i < j < n ==> history[j].id != x.id;
      assert longer[i] == x;
    }
    assert x == e ==> longer[n] == x;
  }

  lemma ConsistentPrefix(history: seq<Event>)
    requires Consistent(history) && history != []
    ensures Consistent(history[..|history| - 1])
  {
  }

  /** `Canon` is strictly sorted and holds exactly the latest event of each id. */
  lemma {:induction false} CanonIsSortedLatest(history: seq<Event>)
    requires Consistent(history)
    ensures Sorted(Canon(history)) && forall x :: x in Canon(history) <==> IsLatest(history, x)
    decreases |history|
  {
    if history != [] {
      var init, e := history[..|history| - 1], history[|history| - 1];
      assert history == init + [e];
      ConsistentPrefix(history);
      CanonIsSortedLatest(init);
      CanonFits(init, e);
      MergeKeepsSorted(Canon(init), e);
      MergeHolds(Canon(init), e);
      forall x ensures x in Canon(history) <==> IsLatest(history, x) {
        LatestOfNext(init, e, x);
      }
    }
  }

  lemma CanonFits(init: seq<Event>, e: Event)
    requires Consistent(init + [e]) && forall x :: x in Canon(init) <==> IsLatest(init, x)
    ensures Fits(Canon(init), e)
  {
    var canon, all := Canon(init), init + [e];
    forall i | 0 <= i < |canon| ensures Compatible(canon[i], e) {
      assert canon[i] in canon;
      var k :| 0 <= k < |init| && init[k] == canon[i];
      assert all[k] == canon[i] && all[|init|] == e && Compatible(all[k], all[|init|]);
    }
  }

  lemma CanonIsConsistent(history: seq<Event>)
    requires Consistent(history)
    ensures Consistent(Canon(history))
  {
    CanonIsSortedLatest(history);
    var canon := Canon(history);
    forall i, j | 0 <= i < |canon| && 0 <= j < |canon| ensures Compatible(canon[i], canon[j]) {
      assert canon[i] in canon && canon[j] in canon;
      var k :| 0 <= k < |history| && history[k] == canon[i];
      var m :| 0 <= m < |history| && history[m] == canon[j];
      assert Compatible(history[k], history[m]);
    }
  }

  // --------------------------------------------------- upserting into a sorted list

  lemma MergeAppends(events: seq<Event>, e: Event)
    requires Sorted(events + [e]) && Fits(events, e)
    ensures Merge(events, e) == events + [e]
  {
    var all := events + [e];
    assert forall i :: 0 <= i < |events| ==> events[i] == all[i] && all[i].sequence < all[|events|].sequence;
    MergeAt(events, e, |events|);
  }

  lemma {:induction false} SortedIsCanon(events: seq<Event>)
    requires Sorted(events) && Consistent(events)
    ensures Canon(events) == events
    decreases |events|
  {
    if events != [] {
      var init, e := events[..|events| - 1], events[|events| - 1];
      SortedIsCanon(init);
      assert init + [e] == events;
      assert forall i :: 0 <= i < |init| ==> init[i] == events[i] && Compatible(events[i], events[|events| - 1]);
      MergeAppends(init, e);
    }
  }

  lemma MergeReplaces(events: seq<Event>, e: Event, i: nat)
    requires Sorted(events) && Fits(events, e) && i < |events| && events[i].id == e.id
    ensures Merge(events, e) == events[i := e]
  {
    assert Compatible(events[i], e);
    MergeAt(events, e, i);
    assert events[i := e] == events[..i] + [e] + events[i + 1..];
  }

  lemma ReplacedIsSorted(events: seq<Event>, e: Event, i: nat)
    requires Sorted(events) && Consistent(events) && Fits(events, e) && i < |events| && events[i].id == e.id
    ensures Sorted(events[i := e]) && Consistent(events[i := e])
  {
    var d := events[i := e];
    assert Compatible(events[i], e);
    forall j, k | 0 <= j < |d| && 0 <= k < |d| ensures Compatible(d[j], d[k]) {
      assert Compatible(events[j], events[k]) && Compatible(events[j], e) && Compatible(events[k], e);
    }
  }

  lemma UpsertIsMerge(events: seq<Event>, e: Event)
    requires Sorted(events) && Consistent(events) && Fits(events, e)
    ensures Canon(Upsert(events, e)) == Merge(events, e)
  {
    var i := IndexOf(events, e.id);
    if i < |events| {
      MergeReplaces(events, e, i);
      ReplacedIsSorted(events, e, i);
      SortedIsCanon(events[i := e]);
    } else {
      SortedIsCanon(events);
      assert (events + [e])[..|events|] == events;
    }
  }

  // -------------------------------------------------------------- main results

  lemma OneMoreArrival(history: seq<Event>, e: Event)
    requires Consistent(history + [e])
    ensures BoundedOf(Upsert(BoundedOf(history), e)) == BoundedOf(history + [e])
  {
    var all := history + [e];
    assert all[..|history|] == history;
    ConsistentPrefix(all);
    CanonIsSortedLatest(history);
    CanonIsConsistent(history);
    CanonFits(history, e);
    var full, kept := Canon(history), BoundedOf(history);
    TrimCovers(full);
    KeptFits(full, kept, e);
    UpsertIsMerge(kept, e);
    MergeKeepsCover(kept, full, e);
  }

  lemma KeptFits(full: seq<Event>, kept: seq<Event>, e: Event)
    requires Consistent(full) && Fits(full, e) && forall x :: x in kept ==> x in full
    ensures Consistent(kept) && Fits(kept, e)
  {
    forall i | 0 <= i < |kept| ensures Compatible(kept[i], e) {
      assert kept[i] in full;
    }
    forall i, j | 0 <= i < |kept| && 0 <= j < |kept| ensures Compatible(kept[i], kept[j]) {
      assert kept[i] in full && kept[j] in full;
      var k :| 0 <= k < |full| && full[k] == kept[i];
      var m :| 0 <= m < |full| && full[m] == kept[j];
    }
  }

  /** Streaming equals batch: upserting any arrivals one by one into a bounded
      history gives what bounding the whole history at once gives. */
  lemma {:induction false} StreamingEqualsBatch(history: seq<Event>, arrivals: seq<Event>)
    requires Consistent(history + arrivals)
    ensures Stream(BoundedOf(history), arrivals) == BoundedOf(history + arrivals)
    decreases |arrivals|
  {
    if arrivals == [] {
      assert history + arrivals == history;
    } else {
      var next := history + [arrivals[0]];
      assert next + arrivals[1..] == history + arrivals;
      assert forall i :: 0 <= i < |next| ==> next[i] == (history + arrivals)[i];
      OneMoreArrival(history, arrivals[0]);
      StreamingEqualsBatch(next, arrivals[1..]);
    }
  }

  /** The bounded list is sorted, holds at most 501 events, the last 500 of the
      history, and always its first user instruction. */
  lemma BoundedIsWellFormed(history: seq<Event>)
    requires Consistent(history)
    ensures var kept, full := BoundedOf(history), Canon(history);
            && Sorted(kept) && |kept| <= TIMELINE_LIMIT + 1 && Suffix(kept) == Suffix(full)
            && (forall x :: x in kept ==> IsLatest(history, x))
            && (FirstInstruction(full).Some? ==>
                  FirstInstruction(full).value in kept && FirstInstruction(kept) == FirstInstruction(full))
  {
    CanonIsSortedLatest(history);
    CanonIsConsistent(history);
    TrimCovers(Canon(history));
    FirstIsInside(BoundedOf(history));
  }

  // ------------------------------------------------------------------ the program

  /** Sorted lists with the same elements are the same list. */
  lemma {:induction false} SortedIsUnique(x: seq<Event>, y: seq<Event>)
    requires Sorted(x) && Sorted(y) && forall e :: e in x <==> e in y
    ensures x == y
  {
    if x == [] {
      assert forall i :: 0 <= i < |y| ==> y[i] in y;
    } else {
      assert x[0] in x && x[0] in y && y[0] in y && y[0] in x;
      assert x[0] == y[0];
      forall e ensures e in x[1..] <==> e in y[1..] {
        assert e in x[1..] <==> e in x && e != x[0] by { TailHasRest(x, e); }
        assert e in y[1..] <==> e in y && e != y[0] by { TailHasRest(y, e); }
      }
      SortedIsUnique(x[1..], y[1..]);
    }
  }

  lemma TailHasRest(x: seq<Event>, e: Event)
    requires Sorted(x) && x != []
    ensures e in x[1..] <==> e in x && e != x[0]
  {
    assert forall i :: 0 <= i < |x[1..]| ==> x[1..][i] == x[i + 1];
  }

  /** The dictionary keyed by id in which the latest value wins. */
  method LatestById(values: seq<Event>) returns (latest: map<string, Event>)
    ensures forall id :: id in latest ==> latest[id].id == id
    ensures forall x :: IsLatest(values, x) <==> x.id in latest && latest[x.id] == x
  {
    latest := map[];
    for i := 0 to |values|
      invariant forall id :: id in latest ==> latest[id].id == id
      invariant forall x :: IsLatest(values[..i], x) <==> x.id in latest && latest[x.id] == x
    {
      assert values[..i + 1] == values[..i] + [values[i]];
      forall x
        ensures IsLatest(values[..i + 1], x) <==> x == values[i] || (IsLatest(values[..i], x) && x.id != values[i].id)
      {
        LatestOfNext(values[..i], values[i], x);
      }
      latest := latest[values[i].id := values[i]];
    }
    assert values[..|values|] == values;
  }

  predicate Ordered(events: seq<Event>) {
    forall i, j :: 0 <= i < j < |events| ==> events[i].sequence <= events[j].sequence
  }

  predicate DistinctIds(events: seq<Event>) {
    forall i, j :: 0 <= i < j < |events| ==> events[i].id != events[j].id
  }

  /** One of the lists the source may return: events of equal sequence stand in
      the order of a dictionary, which is not specified. */
  ghost predicate IsBounding(values: seq<Event>, bounded: seq<Event>) {
    exists sorted ::
      Ordered(sorted) && DistinctIds(sorted) && (forall x :: x in sorted <==> IsLatest(values, x)) &&
      bounded == Trim(sorted)
  }

  function InsertedAt(events: seq<Event>, e: Event, i: nat): seq<Event>
    requires i <= |events|
  {
    events[..i] + [e] + events[i..]
  }

  lemma InsertedHasDistinctIds(events: seq<Event>, e: Event, i: nat)
    requires i <= |events| && DistinctIds(events) && forall x :: x in events ==> x.id != e.id
    ensures DistinctIds(InsertedAt(events, e, i))
  {
    assert forall n :: 0 <= n < |events| ==> events[n] in events;
  }

  lemma InsertedIsOrdered(events: seq<Event>, e: Event, i: nat)
    requires i <= |events| && Ordered(events) && forall k :: 0 <= k < i ==> events[k].sequence <= e.sequence
    requires i < |events| ==> events[i].sequence > e.sequence
    ensures Ordered(InsertedAt(events, e, i)) && forall x :: x in InsertedAt(events, e, i) <==> x == e || x in events
  {
    var r := InsertedAt(events, e, i);
    forall k, m | 0 <= k < m < |r| ensures r[k].sequence <= r[m].sequence {
    }
    assert forall x :: x in events <==> x in events[..i] || x in events[i..];
  }

  lemma InsertedIsSorted(events: seq<Event>, e: Event, i: nat)
    requires i <= |events| && Sorted(events) && forall k :: 0 <= k < i ==> events[k].sequence <= e.sequence
    requires i < |events| ==> events[i].sequence > e.sequence
    requires forall x :: x in events ==> x.sequence != e.sequence
    ensures Sorted(InsertedAt(events, e, i))
  {
    var r := InsertedAt(events, e, i);
    forall k, m | 0 <= k < m < |r| ensures r[k].sequence < r[m].sequence {
      assert k < i ==> events[k] in events;
    }
  }

  method InsertInOrder(events: seq<Event>, e: Event) returns (r: seq<Event>)
    requires Ordered(events)
    ensures DistinctIds(events) && (forall x :: x in events ==> x.id != e.id) ==> DistinctIds(r)
    ensures Ordered(r) && (forall x :: x in r <==> x == e || x in events)
    ensures Sorted(events) && (forall x :: x in events ==> x.sequence != e.sequence) ==> Sorted(r)
  {
    var i := 0;
    while i < |events| && events[i].sequence <= e.sequence
      invariant i <= |events| && forall k :: 0 <= k < i ==> events[k].sequence <= e.sequence
    {
      i := i + 1;
    }
    r := InsertedAt(events, e, i);
    InsertedIsOrdered(events, e, i);
    if Sorted(events) && forall x :: x in events ==> x.sequence != e.sequence {
      InsertedIsSorted(events, e, i);
    }
    if DistinctIds(events) && forall x :: x in events ==> x.id != e.id {
      InsertedHasDistinctIds(events, e, i);
    }
  }

  method SortBySequence(latest: map<string, Event>) returns (sorted: seq<Event>)
    requires forall id :: id in latest ==> latest[id].id == id
    ensures Ordered(sorted) && DistinctIds(sorted) && forall x :: x in sorted <==> x.id in latest && latest[x.id] == x
    ensures (forall i, j :: i in latest && j in latest && i != j ==> latest[i].sequence != latest[j].sequence) ==>
              Sorted(sorted)
  {
    sorted := [];
    ghost var distinct := forall i, j ::
                            i in latest && j in latest && i != j ==> latest[i].sequence != latest[j].sequence;
    var remaining := latest.Keys;
    while remaining != {}
      invariant remaining <= latest.Keys && Ordered(sorted) && DistinctIds(sorted)
      invariant forall x :: x in sorted <==> x.id in latest && x.id !in remaining && latest[x.id] == x
      invariant distinct ==> Sorted(sorted)
      decreases remaining
    {
      var id :| id in remaining;
      assert distinct ==> forall x :: x in sorted ==> x.sequence != latest[id].sequence;
      sorted := InsertInOrder(sorted, latest[id]);
      remaining := remaining - {id};
    }
  }

  /** On any values one of the lists the source may return; on consistent ones
      there is only one. */
  method Bounded(values: seq<Event>) returns (bounded: seq<Event>)
    ensures IsBounding(values, bounded)
    ensures Consistent(values) ==> bounded == BoundedOf(values)
  {
    var latest := LatestById(values);
    var sorted := SortBySequence(latest);
    if Consistent(values) {
      SortedLatestIsCanon(values, latest, sorted);
    }
    bounded := TrimSorted(sorted);
  }

  method TrimSorted(sorted: seq<Event>) returns (bounded: seq<Event>)
    ensures bounded == Trim(sorted)
  {
    bounded := if |sorted| <= TIMELINE_LIMIT then sorted else sorted[|sorted| - TIMELINE_LIMIT..];
    var first := FirstInstruction(sorted);
    if first.Some? {
      var i := IndexOf(bounded, first.value.id);
      if i == |bounded| {
        bounded := [first.value] + bounded;
      }
    }
  }

  lemma SortedLatestIsCanon(values: seq<Event>, latest: map<string, Event>, sorted: seq<Event>)
    requires Consistent(values) && forall id :: id in latest ==> latest[id].id == id
    requires forall x :: IsLatest(values, x) <==> x.id in latest && latest[x.id] == x
    requires forall x :: x in sorted <==> x.id in latest && latest[x.id] == x
    requires (forall i, j :: i in latest && j in latest && i != j ==> latest[i].sequence != latest[j].sequence) ==>
               Sorted(sorted)
    ensures sorted == Canon(values)
  {
    CanonIsSortedLatest(values);
    LatestAreDistinct(values, latest);
    SortedIsUnique(sorted, Canon(values));
  }

  lemma LatestAreDistinct(values: seq<Event>, latest: map<string, Event>)
    requires Consistent(values) && forall id :: id in latest ==> latest[id].id == id
    requires forall x :: IsLatest(values, x) <==> x.id in latest && latest[x.id] == x
    ensures forall i, j :: i in latest && j in latest && i != j ==> latest[i].sequence != latest[j].sequence
  {
    forall i, j | i in latest && j in latest && i != j ensures latest[i].sequence != latest[j].sequence {
      assert IsLatest(values, latest[i]) && IsLatest(values, latest[j]);
      var k :| 0 <= k < |values| && values[k] == latest[i];
      var m :| 0 <= m < |values| && values[m] == latest[j];
      assert Compatible(values[k], values[m]);
    }
  }

  /** The part of the phone's model that holds the timelines. */
  class AppModel {
    var events: map<string, seq<Event>>

    ghost function Timeline(session: string): seq<Event>
      reads this
    {
      if session in events then events[session] else []
    }

    constructor ()
      ensures events == map[]
    {
      events := map[];
    }

    method OnSessionEvents(session: string, batch: seq<Event>)
      modifies this
      ensures IsBounding(batch, Timeline(session))
      ensures Consistent(batch) ==> Timeline(session) == BoundedOf(batch)
      ensures forall other :: other != session ==> Timeline(other) == old(Timeline(other))
    {
      var bounded := Bounded(batch);
      events := events[session := bounded];
    }

    /** Any event is merged and the list bounded again. Of a consistent history the
        timeline follows one event further. */
    method OnEventUpsert(session: string, e: Event, ghost history: seq<Event>)
      modifies this
      ensures IsBounding(Upsert(old(Timeline(session)), e), Timeline(session))
      ensures Consistent(history + [e]) && old(Timeline(session)) == BoundedOf(history) ==>
                Timeline(session) == BoundedOf(history + [e])
      ensures forall other :: other != session ==> Timeline(other) == old(Timeline(other))
    {
      if Consistent(history + [e]) {
        OneMoreArrival(history, e);
        UpsertKeepsConsistent(history, e);
      }
      var sessionEvents := UpsertInto(if session in events then events[session] else [], e);
      var bounded := Bounded(sessionEvents);
      events := events[session := bounded];
    }
  }

  method UpsertInto(events: seq<Event>, e: Event) returns (r: seq<Event>)
    ensures r == Upsert(events, e)
  {
    var index := IndexOf(events, e.id);
    if index < |events| {
      r := events[index := e];
    } else {
      r := events + [e];
    }
  }

  lemma UpsertKeepsConsistent(history: seq<Event>, e: Event)
    requires Consistent(history + [e])
    ensures Consistent(Upsert(BoundedOf(history), e))
  {
    var all, kept, full := history + [e], BoundedOf(history), Canon(history);
    assert all[..|history|] == history;
    ConsistentPrefix(all);
    CanonIsSortedLatest(history);
    CanonIsConsistent(history);
    CanonFits(history, e);
    TrimCovers(full);
    KeptFits(full, kept, e);
    var i := IndexOf(kept, e.id);
    if i < |kept| {
      ReplacedIsSorted(kept, e, i);
    }
  }
}
