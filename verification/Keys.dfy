/** Storage keys: the Bridge scopes a client's idempotency key by device with
    `device:key`, and the phone recognises its own commands by the suffix `:key`.
    Both are sound because an idempotency key contains no colon. */
module Keys {

  datatype Option<+T> = None | Some(value: T)

  predicate ColonFree(s: string) {
    ':' !in s
  }

  function StorageKey(device: string, key: string): string {
    device + ":" + key
  }

  predicate HasSuffix(s: string, suffix: string) {
    |suffix| <= |s| && s[|s| - |suffix|..] == suffix
  }

  /** The part of `s` after its last colon. */
  function LastSegment(s: string): string {
    if s == "" || s[|s| - 1] == ':' then ""
    else LastSegment(s[..|s| - 1]) + [s[|s| - 1]]
  }

  lemma {:induction false} StorageKeyLastSegment(device: string, key: string)
    requires ColonFree(key)
    ensures LastSegment(StorageKey(device, key)) == key
  {
    var s := StorageKey(device, key);
    if key == "" {
      assert s[|s| - 1] == ':';
    } else {
      var init := key[..|key| - 1];
      assert s[..|s| - 1] == StorageKey(device, init);
      StorageKeyLastSegment(device, init);
      assert key == init + [key[|key| - 1]];
    }
  }

  lemma {:induction false} LastSegmentIsSuffix(s: string)
    ensures |LastSegment(s)| <= |s|
    ensures s[|s| - |LastSegment(s)|..] == LastSegment(s)
    ensures ':' in s ==> |LastSegment(s)| < |s| && s[|s| - |LastSegment(s)| - 1] == ':'
  {
    if s != "" && s[|s| - 1] != ':' {
      var init, last := s[..|s| - 1], s[|s| - 1];
      LastSegmentIsSuffix(init);
      assert s == init + [last];
      assert s[|s| - |LastSegment(s)|..] == init[|init| - |LastSegment(init)|..] + [last];
    }
  }

  lemma {:induction false} LastSegmentOfColonFree(s: string)
    requires ColonFree(s)
    ensures LastSegment(s) == s
  {
    if s != "" {
      LastSegmentOfColonFree(s[..|s| - 1]);
      assert s == s[..|s| - 1] + [s[|s| - 1]];
    }
  }

  /** The phone's suffix test picks out exactly one idempotency key. */
  lemma SuffixNamesLastSegment(s: string, key: string)
    requires ColonFree(key)
    ensures HasSuffix(s, ":" + key) <==> ':' in s && LastSegment(s) == key
  {
    if HasSuffix(s, ":" + key) {
      var device := s[..|s| - |key| - 1];
      assert s == device + s[|s| - |key| - 1..] == StorageKey(device, key);
      StorageKeyLastSegment(device, key);
      assert s[|device|] == ':';
    }
    if ':' in s && LastSegment(s) == key {
      LastSegmentIsSuffix(s);
      assert s[|s| - |key| - 1..] == [s[|s| - |key| - 1]] + s[|s| - |key|..];
    }
  }

  lemma StorageKeyInjective(d1: string, k1: string, d2: string, k2: string)
    requires ColonFree(k1) && ColonFree(k2)
    requires StorageKey(d1, k1) == StorageKey(d2, k2)
    ensures d1 == d2 && k1 == k2
  {
    StorageKeyLastSegment(d1, k1);
    StorageKeyLastSegment(d2, k2);
    var s := StorageKey(d1, k1);
    assert d1 == s[..|s| - |k1| - 1] == StorageKey(d2, k2)[..|s| - |k2| - 1] == d2;
  }

  /** The text before the first colon, all of `s` when there is none. */
  function FirstSegment(s: string): string {
    if s == "" || s[0] == ':' then "" else [s[0]] + FirstSegment(s[1..])
  }

  lemma {:induction false} FirstSegmentOfJoin(head: string, rest: string)
    requires ColonFree(head)
    ensures FirstSegment(head + ":" + rest) == head
  {
    var s := head + ":" + rest;
    if head != "" {
      assert s[1..] == head[1..] + ":" + rest;
      FirstSegmentOfJoin(head[1..], rest);
    }
  }

  lemma {:induction false} FirstSegmentOfColonFree(s: string)
    requires ColonFree(s)
    ensures FirstSegment(s) == s
  {
    if s != "" {
      FirstSegmentOfColonFree(s[1..]);
      assert s == [s[0]] + s[1..];
    }
  }
}
