/** The feed store: one row per dedupe key, and progress posts of one task merged
    into the last one while it is recent. */
module FeedCoalescing {
  import opened Keys

  /** `fromAgent` is source "agent"; `body` stands for all that readers see. */
  datatype Post = Post(
    id: string, agent: string, run: string, task: string, progress: bool, fromAgent: bool,
    dedupe: string, createdAt: int, body: string)

  datatype Result = Stored(post: Post, inserted: bool, coalesced: bool) | Thrown

  const PROGRESS_WINDOW := 10 * 60 * 1_000

  predicate SameDedupe(x: Post, y: Post) {
    x.agent == y.agent && x.run == y.run && x.dedupe == y.dedupe
  }

  /** The posts that coalesce with each other. */
  predicate InGroup(x: Post, y: Post) {
    x.progress && x.fromAgent && x.agent == y.agent && x.run == y.run && x.task == y.task
  }

  function FindDedupe(rows: seq<Post>, post: Post): (i: nat)
    ensures i <= |rows| && (i < |rows| ==> SameDedupe(rows[i], post))
    ensures i == |rows| ==> forall k :: 0 <= k < |rows| ==> !SameDedupe(rows[k], post)
  {
    if rows == [] || SameDedupe(rows[0], post) then 0 else 1 + FindDedupe(rows[1..], post)
  }

  function FindId(rows: seq<Post>, id: string): (i: nat)
    ensures i <= |rows| && (i < |rows| ==> rows[i].id == id)
    ensures i == |rows| ==> forall k :: 0 <= k < |rows| ==> rows[k].id != id
  {
    if rows == [] || rows[0].id == id then 0 else 1 + FindId(rows[1..], id)
  }

  predicate Recent(row: Post, post: Post, window: nat) {
    InGroup(row, post) && row.createdAt >= post.createdAt - window
  }

  /** The newest recent row of the group, `|rows|` when there is none. */
  function Newest(rows: seq<Post>, post: Post, window: nat): (i: nat)
    ensures i <= |rows|
    ensures i < |rows| ==> Recent(rows[i], post, window)
    ensures i < |rows| ==>
              forall k :: 0 <= k < |rows| && Recent(rows[k], post, window) ==> rows[k].createdAt <= rows[i].createdAt
    ensures i == |rows| ==> forall k :: 0 <= k < |rows| ==> !Recent(rows[k], post, window)
  {
    if rows == [] then 0
    else
      var n := |rows| - 1;
      var i := Newest(rows[..n], post, window);
      if Recent(rows[n], post, window) && (i == n || rows[n].createdAt > rows[i].createdAt) then n
      else if i == n then |rows|
      else i
  }

  /** The columns a merged row takes over; it keeps its id and its task. */
  function Overwritten(row: Post, post: Post): Post {
    row.(dedupe := post.dedupe, createdAt := post.createdAt, body := post.body)
  }

  datatype Insertion = Insertion(rows: seq<Post>, result: Result)

  /** `known` tells whether the session and the project exist; if not, writing
      throws. A clash of ids alone is ignored by the insert and then throws. */
  function Insert(rows: seq<Post>, post: Post, window: nat, known: bool): Insertion {
    var dedupe, newest := FindDedupe(rows, post), Newest(rows, post, window);
    if dedupe < |rows| then Insertion(rows, Stored(rows[dedupe], false, false))
    else if post.progress && window > 0 && newest < |rows| then
      if !known then Insertion(rows, Thrown)
      else Insertion(rows[newest := Overwritten(rows[newest], post)], Stored(post.(id := rows[newest].id), false, true))
    else if !known || FindId(rows, post.id) < |rows| then Insertion(rows, Thrown)
    else Insertion(rows + [post], Stored(post, true, false))
  }

  datatype Call = Call(post: Post, known: bool)

  /** The one caller posts for agents, with one window. */
  function Run(rows: seq<Post>, calls: seq<Call>, window: nat): seq<Post>
    decreases |calls|
  {
    if calls == [] then rows else Run(Insert(rows, calls[0].post, window, calls[0].known).rows, calls[1..], window)
  }

  // ------------------------------------------------------------------ invariants

  ghost predicate KeysUnique(rows: seq<Post>) {
    forall i, j ::
      0 <= i < |rows| && 0 <= j < |rows| && i != j ==> rows[i].id != rows[j].id && !SameDedupe(rows[i], rows[j])
  }

  predicate FarApart(x: Post, y: Post, window: nat) {
    InGroup(x, y) && InGroup(y, x) ==> x.createdAt - y.createdAt > window || y.createdAt - x.createdAt > window
  }

  ghost predicate Spaced(rows: seq<Post>, window: nat) {
    forall i, j :: 0 <= i < |rows| && 0 <= j < |rows| && i != j ==> FarApart(rows[i], rows[j], window)
  }

  /** Agent posts come with nondecreasing times. */
  ghost predicate NotBefore(rows: seq<Post>, post: Post) {
    post.fromAgent && forall i :: 0 <= i < |rows| ==> rows[i].createdAt <= post.createdAt
  }

  ghost predicate InOrder(rows: seq<Post>, calls: seq<Call>, window: nat)
    decreases |calls|
  {
    calls == [] ||
    (NotBefore(rows, calls[0].post) &&
     InOrder(Insert(rows, calls[0].post, window, calls[0].known).rows, calls[1..], window))
  }

  lemma InsertKeepsKeysUnique(rows: seq<Post>, post: Post, window: nat, known: bool)
    requires KeysUnique(rows)
    ensures KeysUnique(Insert(rows, post, window, known).rows)
  {
  }

  /** The call rewrites the newest recent row instead of adding one. */
  predicate Merges(rows: seq<Post>, post: Post, window: nat, known: bool) {
    known && post.progress && window > 0 && FindDedupe(rows, post) == |rows| && Newest(rows, post, window) < |rows|
  }

  predicate Near(x: int, y: int, window: nat) {
    y - window <= x <= y + window
  }

  /** The guard: a merge moves its row to the post's time, so no other row of the
      group may be near that time. A caller can check this before the call. */
  ghost predicate MergesClear(rows: seq<Post>, post: Post, window: nat, known: bool) {
    Merges(rows, post, window, known) ==>
      forall k ::
        0 <= k < |rows| && k != Newest(rows, post, window) && InGroup(rows[k], post) ==>
          !Near(rows[k].createdAt, post.createdAt, window)
  }

  lemma SpacedAfterExactlyWhen(rows: seq<Post>, post: Post, window: nat, known: bool)
    requires Spaced(rows, window) && window > 0
    ensures Spaced(Insert(rows, post, window, known).rows, window) <==> MergesClear(rows, post, window, known)
  {
    var d, n := Insert(rows, post, window, known).rows, Newest(rows, post, window);
    if MergesClear(rows, post, window, known) {
      forall i, j | 0 <= i < |d| && 0 <= j < |d| && i != j ensures FarApart(d[i], d[j], window) {
        if i < |rows| && j < |rows| {
          assert FarApart(rows[i], rows[j], window);
        }
      }
    } else {
      var k :| 0 <= k < |rows| && k != n && InGroup(rows[k], post) && Near(rows[k].createdAt, post.createdAt, window);
      assert d[k] == rows[k] && d[n] == Overwritten(rows[n], post);
      assert !FarApart(d[k], d[n], window);
    }
  }

  /** With nondecreasing times the guard always holds. */
  lemma InOrderMergesClear(rows: seq<Post>, post: Post, window: nat, known: bool)
    requires Spaced(rows, window) && NotBefore(rows, post) && window > 0
    ensures MergesClear(rows, post, window, known)
  {
    var n := Newest(rows, post, window);
    if Merges(rows, post, window, known) {
      forall k | 0 <= k < |rows| && k != n && InGroup(rows[k], post)
        ensures !Near(rows[k].createdAt, post.createdAt, window)
      {
        assert FarApart(rows[k], rows[n], window);
      }
    }
  }

  ghost predicate AlwaysSpaced(rows: seq<Post>, calls: seq<Call>, window: nat)
    decreases |calls|
  {
    && Spaced(rows, window)
    && (calls == [] || AlwaysSpaced(Insert(rows, calls[0].post, window, calls[0].known).rows, calls[1..], window))
  }

  ghost predicate AlwaysMergesClear(rows: seq<Post>, calls: seq<Call>, window: nat)
    decreases |calls|
  {
    calls == []
    || (MergesClear(rows, calls[0].post, window, calls[0].known)
        && AlwaysMergesClear(Insert(rows, calls[0].post, window, calls[0].known).rows, calls[1..], window))
  }

  /** Stored progress posts of one agent, run and task stay pairwise more than the
      window apart throughout a run if and only if every merge of it was clear. */
  lemma {:induction false} AlwaysSpacedExactlyWhen(rows: seq<Post>, calls: seq<Call>, window: nat)
    requires Spaced(rows, window) && window > 0
    ensures AlwaysSpaced(rows, calls, window) <==> AlwaysMergesClear(rows, calls, window)
    decreases |calls|
  {
    if calls != [] {
      var next := Insert(rows, calls[0].post, window, calls[0].known).rows;
      SpacedAfterExactlyWhen(rows, calls[0].post, window, calls[0].known);
      if Spaced(next, window) {
        AlwaysSpacedExactlyWhen(next, calls[1..], window);
      }
    }
  }

  lemma {:induction false} SpacedAtTheEnd(rows: seq<Post>, calls: seq<Call>, window: nat)
    requires AlwaysSpaced(rows, calls, window)
    ensures Spaced(Run(rows, calls, window), window)
    decreases |calls|
  {
    if calls != [] {
      SpacedAtTheEnd(Insert(rows, calls[0].post, window, calls[0].known).rows, calls[1..], window);
    }
  }

  /** Over every run, rows stay unique by id and by (agent, run, dedupe key). */
  lemma {:induction false} KeysStayUnique(rows: seq<Post>, calls: seq<Call>, window: nat)
    requires KeysUnique(rows)
    ensures KeysUnique(Run(rows, calls, window))
    decreases |calls|
  {
    if calls != [] {
      InsertKeepsKeysUnique(rows, calls[0].post, window, calls[0].known);
      KeysStayUnique(Insert(rows, calls[0].post, window, calls[0].known).rows, calls[1..], window);
    }
  }

  /** With nondecreasing times every merge is clear, so the posts stay spaced. */
  lemma {:induction false} InOrderIsClear(rows: seq<Post>, calls: seq<Call>, window: nat)
    requires Spaced(rows, window) && InOrder(rows, calls, window) && window > 0
    ensures AlwaysMergesClear(rows, calls, window)
    decreases |calls|
  {
    if calls != [] {
      InOrderMergesClear(rows, calls[0].post, window, calls[0].known);
      SpacedAfterExactlyWhen(rows, calls[0].post, window, calls[0].known);
      InOrderIsClear(Insert(rows, calls[0].post, window, calls[0].known).rows, calls[1..], window);
    }
  }

  lemma ProgressStaysSpaced(rows: seq<Post>, calls: seq<Call>, window: nat)
    requires Spaced(rows, window) && InOrder(rows, calls, window) && window > 0
    ensures Spaced(Run(rows, calls, window), window)
  {
    InOrderIsClear(rows, calls, window);
    AlwaysSpacedExactlyWhen(rows, calls, window);
    SpacedAtTheEnd(rows, calls, window);
  }

  // ---------------------------------------------------------------- the rate bound

  /** The stored progress posts of a group with times in [from, to]. */
  function PostsIn(rows: seq<Post>, group: Post, from: int, to: int): set<nat> {
    set i: nat | i < |rows| && InGroup(rows[i], group) && from <= rows[i].createdAt <= to
  }

  lemma LatestOf(rows: seq<Post>, posts: set<nat>) returns (last: nat)
    requires posts != {} && forall i :: i in posts ==> i < |rows|
    ensures last in posts && forall i :: i in posts ==> rows[i].createdAt <= rows[last].createdAt
    decreases posts
  {
    var i :| i in posts;
    if posts == {i} {
      last := i;
    } else {
      var other := LatestOf(rows, posts - {i});
      last := if rows[i].createdAt > rows[other].createdAt then i else other;
    }
  }

  lemma {:induction false} SpacedPostsAreFew(rows: seq<Post>, posts: set<nat>, window: nat, from: int, to: int)
    requires window > 0 && from <= to
    requires forall i :: i in posts ==> i < |rows| && from <= rows[i].createdAt <= to
    requires forall i, j :: i in posts && j in posts && i != j ==>
               rows[i].createdAt - rows[j].createdAt > window || rows[j].createdAt - rows[i].createdAt > window
    ensures |posts| <= (to - from) / window + 1
    decreases posts
  {
    if posts != {} {
      var last := LatestOf(rows, posts);
      var rest, edge := posts - {last}, rows[last].createdAt - window - 1;
      assert posts == rest + {last};
      assert forall i :: i in rest ==> rows[i].createdAt <= edge;
      if rest != {} {
        var i :| i in rest;
        assert from <= edge;
        SpacedPostsAreFew(rows, rest, window, from, edge);
        OneWindowLess(from, edge, to, window);
      } else {
        assert |posts| == 1;
      }
    }
  }

  lemma OneWindowLess(from: int, edge: int, to: int, window: nat)
    requires window > 0 && from <= edge && edge + window < to + 1
    ensures (edge - from) / window + 1 <= (to - from) / window
  {
    var q, r := (edge - from) / window, (edge - from) % window;
    assert edge - from == window * q + r;
    assert to - from >= window * (q + 1);
    QuotientAtLeast(to - from, window, q + 1);
  }

  lemma ProductsKeepOrder(d: int, x: int, y: int)
    requires d > 0 && x <= y
    ensures d * x <= d * y
  {
    assert d * (y - x) >= 0;
  }

  lemma QuotientAtLeast(n: int, d: int, q: int)
    requires d > 0 && n >= d * q
    ensures n / d >= q
  {
    var k := n / d;
    assert n < d * k + d == d * (k + 1);
    if k + 1 <= q {
      ProductsKeepOrder(d, k + 1, q);
    }
  }

  /** While merges are clear, at most floor((b - a) / window) + 1 stored progress
      posts of one group lie in any [a, b]. */
  lemma ProgressRateIsBounded(calls: seq<Call>, window: nat, group: Post, from: int, to: int)
    requires window > 0 && from <= to && AlwaysMergesClear([], calls, window)
    ensures |PostsIn(Run([], calls, window), group, from, to)| <= (to - from) / window + 1
  {
    AlwaysSpacedExactlyWhen([], calls, window);
    SpacedAtTheEnd([], calls, window);
    var rows := Run([], calls, window);
    var posts := PostsIn(rows, group, from, to);
    forall i, j | i in posts && j in posts && i != j
      ensures rows[i].createdAt - rows[j].createdAt > window || rows[j].createdAt - rows[i].createdAt > window
    {
      assert FarApart(rows[i], rows[j], window);
    }
    SpacedPostsAreFew(rows, posts, window, from, to);
  }

  /** With nondecreasing times and the window the agent tools use: at most seven in
      any hour. */
  lemma AtMostSevenAnHour(calls: seq<Call>, group: Post, from: int)
    requires InOrder([], calls, PROGRESS_WINDOW)
    ensures |PostsIn(Run([], calls, PROGRESS_WINDOW), group, from, from + 3_600_000)| <= 7
  {
    InOrderIsClear([], calls, PROGRESS_WINDOW);
    ProgressRateIsBounded(calls, PROGRESS_WINDOW, group, from, from + 3_600_000);
  }

  // ------------------------------------------------------------- what a call does

  /** A call adds a row exactly when it reports `inserted`; it rewrites one row
      exactly when it reports `coalesced`; otherwise it changes nothing. A post
      that coalesced is found under its dedupe key from then on. */
  lemma CallsReportWhatTheyDo(rows: seq<Post>, post: Post, window: nat, known: bool)
    requires KeysUnique(rows)
    ensures var (d, result) := (Insert(rows, post, window, known).rows, Insert(rows, post, window, known).result);
            && (|d| == |rows| + 1 <==> result.Stored? && result.inserted) && (|d| != |rows| + 1 ==> |d| == |rows|)
            && (result.Stored? && result.inserted ==> d == rows + [post] && result.post == post)
            && (result.Stored? && result.coalesced ==>
                  && !result.inserted && post.progress && FindId(rows, result.post.id) < |rows|
                  && FindDedupe(d, post) < |d|
                  && var i := FindId(rows, result.post.id);
                     Recent(rows[i], post, window) && d == rows[i := Overwritten(rows[i], post)])
            && (result.Thrown? || (!result.inserted && !result.coalesced) ==> d == rows)
            && (result.Stored? && !result.inserted && !result.coalesced ==>
                  result.post in rows && SameDedupe(result.post, post))
  {
    var newest := Newest(rows, post, window);
    if FindDedupe(rows, post) == |rows| && newest < |rows| {
      assert FindId(rows, rows[newest].id) == newest;
      var d := rows[newest := Overwritten(rows[newest], post)];
      assert SameDedupe(d[newest], post);
    }
  }

  /** What readers see after a merge: the newest recent row of the group under its own
      id, with the text, the time and the dedupe key of the new post; every other row
      is as it was, and the answer is the post under that id. */
  lemma MergedRowShowsThePost(rows: seq<Post>, post: Post, window: nat, known: bool, i: nat)
    requires Merges(rows, post, window, known) && i < |rows|
    ensures var insertion, newest := Insert(rows, post, window, known), Newest(rows, post, window);
            var d := insertion.rows;
            && |d| == |rows| && newest < |rows|
            && if i == newest
               then && d[i].id == rows[i].id && d[i].body == post.body && d[i].createdAt == post.createdAt
                    && SameDedupe(d[i], post) && InGroup(d[i], post)
                    && insertion.result == Stored(post.(id := rows[i].id), false, true)
               else d[i] == rows[i]
  {
    assert Recent(rows[Newest(rows, post, window)], post, window);
  }

  /** A new dedupe key is inserted exactly when nothing recent takes it in, its id
      is new and what it refers to exists. */
  lemma InsertedExactlyWhen(rows: seq<Post>, post: Post, window: nat, known: bool)
    ensures var result := Insert(rows, post, window, known).result;
            result.Stored? && result.inserted <==>
            && known
            && (forall k :: 0 <= k < |rows| ==> !SameDedupe(rows[k], post) && rows[k].id != post.id)
            && (post.progress && window > 0 ==> forall k :: 0 <= k < |rows| ==> !Recent(rows[k], post, window))
  {
    assert FindDedupe(rows, post) < |rows| ==> SameDedupe(rows[FindDedupe(rows, post)], post);
    assert FindId(rows, post.id) < |rows| ==> rows[FindId(rows, post.id)].id == post.id;
    assert Newest(rows, post, window) < |rows| ==> Recent(rows[Newest(rows, post, window)], post, window);
  }

  /** A merge that is not clear: an early post that merges into a late row pulls it
      next to another. */
  lemma BackwardsClockBreaksSpacing()
    ensures var p0 := Post("0", "a", "r", "t", true, true, "k0", 0, "");
            var p1 := p0.(id := "1", dedupe := "k1", createdAt := 100);
            var p2 := p0.(id := "2", dedupe := "k2", createdAt := 5);
            var rows := Run([], [Call(p0, true), Call(p1, true), Call(p2, true)], 10);
            |rows| == 2 && rows[0].createdAt == 0 && rows[1].createdAt == 5
  {
    var p0 := Post("0", "a", "r", "t", true, true, "k0", 0, "");
    var p1, p2 := p0.(id := "1", dedupe := "k1", createdAt := 100), p0.(id := "2", dedupe := "k2", createdAt := 5);
    DistinctKeys();
    assert Newest([p0], p1, 10) == 1 && FindDedupe([p0], p1) == 1 && FindId([p0], "1") == 1;
    var two := [p0, p1];
    assert Insert([], p0, 10, true).rows == [p0];
    assert Insert([p0], p1, 10, true).rows == two;
    assert FindDedupe(two, p2) == 2;
    assert Recent(two[1], p2, 10);
    var three := Insert(two, p2, 10, true).rows;
    assert Newest(two, p2, 10) == 1;
    var c0, c1, c2 := Call(p0, true), Call(p1, true), Call(p2, true);
    calc {
      Run([], [c0, c1, c2], 10);
      { assert [c0, c1, c2][1..] == [c1, c2]; }
      Run([p0], [c1, c2], 10);
      { assert [c1, c2][1..] == [c2]; }
      Run(two, [c2], 10);
      three;
    }
  }

  lemma DistinctKeys()
    ensures "k0" != "k1" && "k0" != "k2" && "k1" != "k2" && "0" != "1" && "0" != "2" && "1" != "2"
  {
    assert "k0"[1] != "k1"[1] && "k0"[1] != "k2"[1] && "k1"[1] != "k2"[1];
  }

  // ------------------------------------------------------------------- the store

  class FeedStore {
    var feedPosts: seq<Post>

    constructor ()
      ensures feedPosts == []
    {
      feedPosts := [];
    }

    method InsertFeedPost(post: Post, coalesceWithin: nat, known: bool) returns (result: Result)
      modifies this
      ensures feedPosts == Insert(old(feedPosts), post, coalesceWithin, known).rows
      ensures result == Insert(old(feedPosts), post, coalesceWithin, known).result
    {
      var existing := FindDedupe(feedPosts, post);
      if existing < |feedPosts| {
        return Stored(feedPosts[existing], false, false);
      }
      if post.progress && coalesceWithin > 0 {
        var recent := FindRecent(post, coalesceWithin);
        if recent < |feedPosts| {
          if !known {
            return Thrown;
          }
          var row := feedPosts[recent];
          feedPosts := feedPosts[recent := row.(dedupe := post.dedupe, createdAt := post.createdAt, body := post.body)];
          return Stored(post.(id := row.id), false, true);
        }
      }
      if !known || FindId(feedPosts, post.id) < |feedPosts| {
        return Thrown;
      }
      feedPosts := feedPosts + [post];
      result := Stored(post, true, false);
    }

    /** The newest recent progress post, by one pass over the table. */
    method FindRecent(post: Post, window: nat) returns (recent: nat)
      ensures recent == Newest(feedPosts, post, window)
    {
      recent := 0;
      for n := 0 to |feedPosts|
        invariant recent == Newest(feedPosts[..n], post, window)
      {
        assert feedPosts[..n + 1][..n] == feedPosts[..n];
        var row := feedPosts[n];
        if Recent(row, post, window) && (recent == n || row.createdAt > feedPosts[recent].createdAt) {
          recent := n;
        } else if recent == n {
          recent := n + 1;
        }
      }
      assert feedPosts[..|feedPosts|] == feedPosts;
    }
  }
}
