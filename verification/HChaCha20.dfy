/** The nonce and subkey derivation of the phone's channel: the in-place state
    transform of HChaCha20, its word packing, and the counter nonce. */
module HChaCha20 {

  // ------------------------------------------------------------ quarter round

  function RotateLeft(value: bv32, count: bv32): bv32
    requires 0 < count < 32
  {
    (value << count) | (value >> (32 - count))
  }

  function RotateRight(value: bv32, count: bv32): bv32
    requires 0 < count < 32
  {
    (value >> count) | (value << (32 - count))
  }

  /** The four amounts a quarter round rotates by. */
  datatype Amount = By16 | By12 | By8 | By7

  function Left(value: bv32, turn: Amount): bv32 {
    match turn
    case By16 => RotateLeft(value, 16)
    case By12 => RotateLeft(value, 12)
    case By8 => RotateLeft(value, 8)
    case By7 => RotateLeft(value, 7)
  }

  function Right(value: bv32, turn: Amount): bv32 {
    match turn
    case By16 => RotateRight(value, 16)
    case By12 => RotateRight(value, 12)
    case By8 => RotateRight(value, 8)
    case By7 => RotateRight(value, 7)
  }

  datatype Quad = Quad(a: bv32, b: bv32, c: bv32, d: bv32)

  /** One line of the quarter round: add `b` to `a`, fold into `d`, rotate. */
  function Line(a: bv32, b: bv32, d: bv32, turn: Amount): (bv32, bv32) {
    (a + b, Left(d ^ (a + b), turn))
  }

  function Unline(a: bv32, b: bv32, d: bv32, turn: Amount): (bv32, bv32) {
    (a - b, Right(d, turn) ^ a)
  }

  function Mix(q: Quad): Quad {
    var (a1, d1) := Line(q.a, q.b, q.d, By16);
    var (c1, b1) := Line(q.c, d1, q.b, By12);
    var (a2, d2) := Line(a1, b1, d1, By8);
    var (c2, b2) := Line(c1, d2, b1, By7);
    Quad(a2, b2, c2, d2)
  }

  /** The same lines, last first and each undone. */
  function Unmix(q: Quad): Quad {
    var (c1, b1) := Unline(q.c, q.d, q.b, By7);
    var (a1, d1) := Unline(q.a, b1, q.d, By8);
    var (c0, b0) := Unline(c1, d1, b1, By12);
    var (a0, d0) := Unline(a1, b0, d1, By16);
    Quad(a0, b0, c0, d0)
  }

  // The solver knows the bits only of shifts by a literal.

  lemma RotationsBy16Cancel(x: bv32)
    ensures RotateRight(RotateLeft(x, 16), 16) == x && RotateLeft(RotateRight(x, 16), 16) == x
  {
  }

  lemma RotationsBy12Cancel(x: bv32)
    ensures RotateRight(RotateLeft(x, 12), 12) == x && RotateLeft(RotateRight(x, 12), 12) == x
  {
  }

  lemma RotationsBy8Cancel(x: bv32)
    ensures RotateRight(RotateLeft(x, 8), 8) == x && RotateLeft(RotateRight(x, 8), 8) == x
  {
  }

  lemma RotationsBy7Cancel(x: bv32)
    ensures RotateRight(RotateLeft(x, 7), 7) == x && RotateLeft(RotateRight(x, 7), 7) == x
  {
  }

  lemma RotationsCancel(x: bv32, turn: Amount)
    ensures Right(Left(x, turn), turn) == x && Left(Right(x, turn), turn) == x
  {
    match turn
    case By16 => RotationsBy16Cancel(x);
    case By12 => RotationsBy12Cancel(x);
    case By8 => RotationsBy8Cancel(x);
    case By7 => RotationsBy7Cancel(x);
  }

  lemma UnlineLine(a: bv32, b: bv32, d: bv32, turn: Amount)
    ensures Unline(a + b, b, Left(d ^ (a + b), turn), turn) == (a, d)
  {
    RotationsCancel(d ^ (a + b), turn);
  }

  lemma LineUnline(a: bv32, b: bv32, d: bv32, turn: Amount)
    ensures Line(a - b, b, Right(d, turn) ^ a, turn) == (a, d)
  {
    RotationsCancel(d, turn);
  }

  lemma LineCancels(a: bv32, b: bv32, d: bv32, turn: Amount)
    ensures var r := Line(a, b, d, turn); Unline(r.0, b, r.1, turn) == (a, d)
    ensures var r := Unline(a, b, d, turn); Line(r.0, b, r.1, turn) == (a, d)
  {
    UnlineLine(a, b, d, turn);
    LineUnline(a, b, d, turn);
  }

  /** A quarter round can be undone, and undoing it can be redone. */
  lemma MixCancels(q: Quad)
    ensures Unmix(Mix(q)) == q && Mix(Unmix(q)) == q
  {
    var (a1, d1) := Line(q.a, q.b, q.d, By16);
    var (c1, b1) := Line(q.c, d1, q.b, By12);
    LineCancels(q.a, q.b, q.d, By16);
    LineCancels(q.c, d1, q.b, By12);
    LineCancels(a1, b1, d1, By8);
    LineCancels(c1, Line(a1, b1, d1, By8).1, b1, By7);
    var (c3, b3) := Unline(q.c, q.d, q.b, By7);
    var (a3, d3) := Unline(q.a, b3, q.d, By8);
    LineCancels(q.c, q.d, q.b, By7);
    LineCancels(q.a, b3, q.d, By8);
    LineCancels(c3, d3, b3, By12);
    LineCancels(a3, Unline(c3, d3, b3, By12).1, d3, By16);
  }

  /** The example of section 2.1.1 of RFC 8439. */
  lemma QuarterRoundExample()
    ensures Mix(Quad(0x11111111, 0x01020304, 0x9b8d6f43, 0x01234567)) ==
            Quad(0xea2a92f4, 0xcb1cf8ce, 0x4581472e, 0x5881c4bb)
  {
  }

  // ------------------------------------------------------------ the whole state

  datatype Slot = Slot(a: nat, b: nat, c: nat, d: nat)

  predicate Distinct(slot: Slot) {
    && slot.a < 16 && slot.b < 16 && slot.c < 16 && slot.d < 16
    && slot.a != slot.b && slot.a != slot.c && slot.a != slot.d && slot.b != slot.c && slot.b != slot.d
    && slot.c != slot.d
  }

  type Place = slot: Slot | Distinct(slot) witness Slot(0, 1, 2, 3)

  /** Four columns, then four diagonals: section 2.3 of RFC 8439. */
  const SLOTS: seq<Place> := [
    Slot(0, 4, 8, 12), Slot(1, 5, 9, 13), Slot(2, 6, 10, 14), Slot(3, 7, 11, 15),
    Slot(0, 5, 10, 15), Slot(1, 6, 11, 12), Slot(2, 7, 8, 13), Slot(3, 4, 9, 14)]

  function QuadAt(state: seq<bv32>, slot: Place): Quad
    requires |state| == 16
  {
    Quad(state[slot.a], state[slot.b], state[slot.c], state[slot.d])
  }

  /** `f` applied to the four words of one slot. */
  function OnSlot(state: seq<bv32>, f: Quad -> Quad, slot: Place): (r: seq<bv32>)
    requires |state| == 16
    ensures |r| == 16 && QuadAt(r, slot) == f(QuadAt(state, slot))
    ensures forall i :: 0 <= i < 16 && i != slot.a && i != slot.b && i != slot.c && i != slot.d ==> r[i] == state[i]
  {
    var q := f(QuadAt(state, slot));
    state[slot.a := q.a][slot.b := q.b][slot.c := q.c][slot.d := q.d]
  }

  function Sweep(state: seq<bv32>, f: Quad -> Quad, slots: seq<Place>): (r: seq<bv32>)
    requires |state| == 16
    ensures |r| == 16
    decreases |slots|
  {
    if slots == [] then state else Sweep(OnSlot(state, f, slots[0]), f, slots[1..])
  }

  function SweepBack(state: seq<bv32>, f: Quad -> Quad, slots: seq<Place>): (r: seq<bv32>)
    requires |state| == 16
    ensures |r| == 16
    decreases |slots|
  {
    if slots == [] then state else OnSlot(SweepBack(state, f, slots[1..]), f, slots[0])
  }

  function Rounds(state: seq<bv32>, f: Quad -> Quad, slots: seq<Place>, n: nat): (r: seq<bv32>)
    requires |state| == 16
    ensures |r| == 16
    decreases n
  {
    if n == 0 then state else Sweep(Rounds(state, f, slots, n - 1), f, slots)
  }

  function RoundsBack(state: seq<bv32>, f: Quad -> Quad, slots: seq<Place>, n: nat): (r: seq<bv32>)
    requires |state| == 16
    ensures |r| == 16
    decreases n
  {
    if n == 0 then state else RoundsBack(SweepBack(state, f, slots), f, slots, n - 1)
  }

  ghost predicate Undoes(g: Quad -> Quad, f: Quad -> Quad) {
    forall q :: g(f(q)) == q
  }

  lemma SlotCancels(state: seq<bv32>, f: Quad -> Quad, g: Quad -> Quad, slot: Place)
    requires |state| == 16 && Undoes(g, f)
    ensures OnSlot(OnSlot(state, f, slot), g, slot) == state
  {
    var there := OnSlot(state, f, slot);
    var back := OnSlot(there, g, slot);
    assert QuadAt(back, slot) == QuadAt(state, slot);
    forall i | 0 <= i < 16 ensures back[i] == state[i] {
      assert i != slot.a && i != slot.b && i != slot.c && i != slot.d ==> back[i] == there[i] == state[i];
    }
  }

  lemma {:induction false} SweepCancels(state: seq<bv32>, f: Quad -> Quad, g: Quad -> Quad, slots: seq<Place>)
    requires |state| == 16 && Undoes(g, f)
    ensures SweepBack(Sweep(state, f, slots), g, slots) == state
    decreases |slots|
  {
    if slots != [] {
      SweepCancels(OnSlot(state, f, slots[0]), f, g, slots[1..]);
      SlotCancels(state, f, g, slots[0]);
    }
  }

  lemma {:induction false} SweepBackCancels(state: seq<bv32>, f: Quad -> Quad, g: Quad -> Quad, slots: seq<Place>)
    requires |state| == 16 && Undoes(f, g)
    ensures Sweep(SweepBack(state, g, slots), f, slots) == state
    decreases |slots|
  {
    if slots != [] {
      SlotCancels(SweepBack(state, g, slots[1..]), g, f, slots[0]);
      SweepBackCancels(state, f, g, slots[1..]);
    }
  }

  lemma {:induction false} RoundsCancel(state: seq<bv32>, f: Quad -> Quad, g: Quad -> Quad, slots: seq<Place>, n: nat)
    requires |state| == 16 && Undoes(g, f)
    ensures RoundsBack(Rounds(state, f, slots, n), g, slots, n) == state
    decreases n
  {
    if n > 0 {
      SweepCancels(Rounds(state, f, slots, n - 1), f, g, slots);
      RoundsCancel(state, f, g, slots, n - 1);
    }
  }

  lemma {:induction false} RoundsBackCancel(state: seq<bv32>, f: Quad -> Quad, g: Quad -> Quad, slots: seq<Place>,
                                            n: nat)
    requires |state| == 16 && Undoes(f, g)
    ensures Rounds(RoundsBack(state, g, slots, n), f, slots, n) == state
    decreases n
  {
    if n > 0 {
      var back := SweepBack(state, g, slots);
      var start := RoundsBack(back, g, slots, n - 1);
      RoundsBackCancel(back, f, g, slots, n - 1);
      SweepBackCancels(state, f, g, slots);
      assert Rounds(start, f, slots, n) == Sweep(back, f, slots);
    }
  }

  lemma MixAndUnmix()
    ensures Undoes(Unmix, Mix) && Undoes(Mix, Unmix)
  {
    forall q ensures Unmix(Mix(q)) == q && Mix(Unmix(q)) == q {
      MixCancels(q);
    }
  }

  function Transform(state: seq<bv32>, doubleRounds: nat): (r: seq<bv32>)
    requires |state| == 16
    ensures |r| == 16
  {
    Rounds(state, Mix, SLOTS, doubleRounds)
  }

  function Untransform(state: seq<bv32>, doubleRounds: nat): (r: seq<bv32>)
    requires |state| == 16
    ensures |r| == 16
  {
    RoundsBack(state, Unmix, SLOTS, doubleRounds)
  }

  /** Any number of double rounds, so also the ten used here, is a bijection on
      states with an explicit inverse. */
  lemma TransformIsABijection(state: seq<bv32>, n: nat)
    requires |state| == 16
    ensures Untransform(Transform(state, n), n) == state && Transform(Untransform(state, n), n) == state
  {
    MixAndUnmix();
    RoundsCancel(state, Mix, Unmix, SLOTS, n);
    RoundsBackCancel(state, Mix, Unmix, SLOTS, n);
  }

  // ---------------------------------------------------------------------- words

  function Pack(b0: bv8, b1: bv8, b2: bv8, b3: bv8): bv32 {
    (b0 as bv32) | ((b1 as bv32) << 8) | ((b2 as bv32) << 16) | ((b3 as bv32) << 24)
  }

  function Unpack(word: bv32): seq<bv8> {
    [(word & 0xff) as bv8, ((word >> 8) & 0xff) as bv8, ((word >> 16) & 0xff) as bv8, ((word >> 24) & 0xff) as bv8]
  }

  lemma PackUnpack(word: bv32, b0: bv8, b1: bv8, b2: bv8, b3: bv8)
    ensures Pack(Unpack(word)[0], Unpack(word)[1], Unpack(word)[2], Unpack(word)[3]) == word
    ensures Unpack(Pack(b0, b1, b2, b3)) == [b0, b1, b2, b3]
  {
  }

  function WordsOf(bytes: seq<bv8>): (r: seq<bv32>)
    requires |bytes| % 4 == 0
    ensures |r| == |bytes| / 4
  {
    if bytes == [] then [] else [Pack(bytes[0], bytes[1], bytes[2], bytes[3])] + WordsOf(bytes[4..])
  }

  function BytesOf(words: seq<bv32>): (r: seq<bv8>)
    ensures |r| == 4 * |words|
  {
    if words == [] then [] else Unpack(words[0]) + BytesOf(words[1..])
  }

  /** Packing and unpacking undo each other, in both directions. */
  lemma {:induction false} WordsOfBytes(words: seq<bv32>)
    ensures WordsOf(BytesOf(words)) == words
  {
    if words != [] {
      WordsOfBytes(words[1..]);
      PackUnpack(words[0], 0, 0, 0, 0);
      assert BytesOf(words)[4..] == BytesOf(words[1..]);
    }
  }

  lemma {:induction false} BytesOfWords(bytes: seq<bv8>)
    requires |bytes| % 4 == 0
    ensures BytesOf(WordsOf(bytes)) == bytes
  {
    if bytes != [] {
      BytesOfWords(bytes[4..]);
      PackUnpack(0, bytes[0], bytes[1], bytes[2], bytes[3]);
      assert WordsOf(bytes)[1..] == WordsOf(bytes[4..]);
      assert bytes == bytes[..4] + bytes[4..];
    }
  }

  // --------------------------------------------------------------- in-place code

  lemma OnSlotIsUnique(before: seq<bv32>, after: seq<bv32>, f: Quad -> Quad, slot: Place)
    requires |before| == |after| == 16 && QuadAt(after, slot) == f(QuadAt(before, slot))
    requires forall i ::
               0 <= i < 16 && i != slot.a && i != slot.b && i != slot.c && i != slot.d ==> after[i] == before[i]
    ensures after == OnSlot(before, f, slot)
  {
    var r := OnSlot(before, f, slot);
    assert QuadAt(r, slot) == QuadAt(after, slot);
    forall i | 0 <= i < 16 ensures r[i] == after[i] {
      assert i != slot.a && i != slot.b && i != slot.c && i != slot.d ==> r[i] == before[i];
    }
  }

  method LineInPlace(state: array<bv32>, a: nat, b: nat, d: nat, turn: Amount)
    requires state.Length == 16 && a < 16 && b < 16 && d < 16 && a != b && a != d && b != d
    modifies state
    ensures (state[a], state[d]) == Line(old(state[a]), old(state[b]), old(state[d]), turn)
    ensures forall i :: 0 <= i < 16 && i != a && i != d ==> state[i] == old(state[i])
  {
    state[a] := state[a] + state[b]; state[d] := state[d] ^ state[a]; state[d] := Left(state[d], turn);
  }

  method QuarterRound(state: array<bv32>, a: nat, b: nat, c: nat, d: nat)
    requires state.Length == 16 && Distinct(Slot(a, b, c, d))
    modifies state
    ensures state[..] == OnSlot(old(state[..]), Mix, Slot(a, b, c, d))
  {
    ghost var slot: Place := Slot(a, b, c, d);
    LineInPlace(state, a, b, d, By16);
    LineInPlace(state, c, d, b, By12);
    LineInPlace(state, a, b, d, By8);
    LineInPlace(state, c, d, b, By7);
    assert QuadAt(state[..], slot) == Mix(QuadAt(old(state[..]), slot));
    OnSlotIsUnique(old(state[..]), state[..], Mix, slot);
  }

  lemma {:induction false} SweepSnoc(s: seq<bv32>, f: Quad -> Quad, slots: seq<Place>, last: Place)
    requires |s| == 16
    ensures Sweep(s, f, slots + [last]) == OnSlot(Sweep(s, f, slots), f, last)
    decreases |slots|
  {
    var longer := slots + [last];
    if slots == [] {
      assert longer[1..] == [];
    } else {
      assert longer[1..] == slots[1..] + [last];
      SweepSnoc(OnSlot(s, f, slots[0]), f, slots[1..], last);
    }
  }

  /** A sweep after one more of its slots. */
  lemma SweepAdvances(s: seq<bv32>, f: Quad -> Quad, slots: seq<Place>, k: nat)
    requires |s| == 16 && k < |slots|
    ensures Sweep(s, f, slots[..k + 1]) == OnSlot(Sweep(s, f, slots[..k]), f, slots[k])
  {
    assert slots[..k + 1] == slots[..k] + [slots[k]];
    SweepSnoc(s, f, slots[..k], slots[k]);
  }

  /** One quarter round, as the next slot of the sweep that began at `before`. */
  method NextQuarterRound(state: array<bv32>, a: nat, b: nat, c: nat, d: nat, ghost before: seq<bv32>,
                          ghost slots: seq<Place>, ghost k: nat)
    requires state.Length == 16 && |before| == 16 && Distinct(Slot(a, b, c, d))
    requires k < |slots| && slots[k] == Slot(a, b, c, d) && state[..] == Sweep(before, Mix, slots[..k])
    modifies state
    ensures state[..] == Sweep(before, Mix, slots[..k + 1])
  {
    SweepAdvances(before, Mix, slots, k);
    QuarterRound(state, a, b, c, d);
  }

  method Columns(state: array<bv32>, ghost before: seq<bv32>, ghost slots: seq<Place>)
    requires state.Length == 16 && state[..] == before && |slots| == 8
    requires slots[0] == Slot(0, 4, 8, 12) && slots[1] == Slot(1, 5, 9, 13) && slots[2] == Slot(2, 6, 10, 14) &&
             slots[3] == Slot(3, 7, 11, 15)
    modifies state
    ensures state[..] == Sweep(before, Mix, slots[..4])
  {
    assert slots[..0] == [];
    NextQuarterRound(state, 0, 4, 8, 12, before, slots, 0);
    NextQuarterRound(state, 1, 5, 9, 13, before, slots, 1);
    NextQuarterRound(state, 2, 6, 10, 14, before, slots, 2);
    NextQuarterRound(state, 3, 7, 11, 15, before, slots, 3);
  }

  method Diagonals(state: array<bv32>, ghost before: seq<bv32>, ghost slots: seq<Place>)
    requires state.Length == 16 && |before| == 16 && |slots| == 8 && state[..] == Sweep(before, Mix, slots[..4])
    requires slots[4] == Slot(0, 5, 10, 15) && slots[5] == Slot(1, 6, 11, 12) && slots[6] == Slot(2, 7, 8, 13) &&
             slots[7] == Slot(3, 4, 9, 14)
    modifies state
    ensures state[..] == Sweep(before, Mix, slots)
  {
    NextQuarterRound(state, 0, 5, 10, 15, before, slots, 4);
    NextQuarterRound(state, 1, 6, 11, 12, before, slots, 5);
    NextQuarterRound(state, 2, 7, 8, 13, before, slots, 6);
    NextQuarterRound(state, 3, 4, 9, 14, before, slots, 7);
    assert slots[..8] == slots;
  }

  method DoubleRound(state: array<bv32>)
    requires state.Length == 16
    modifies state
    ensures state[..] == Sweep(old(state[..]), Mix, SLOTS)
  {
    ghost var before, slots := state[..], SLOTS;
    Columns(state, before, slots);
    Diagonals(state, before, slots);
  }

  method Words(data: seq<bv8>) returns (result: seq<bv32>)
    requires |data| % 4 == 0
    ensures result == WordsOf(data)
  {
    result := [];
    var index := 0;
    while index < |data|
      invariant index <= |data| && index % 4 == 0
      invariant result + WordsOf(data[index..]) == WordsOf(data)
    {
      var word := Pack(data[index], data[index + 1], data[index + 2], data[index + 3]);
      assert WordsOf(data[index..]) == [word] + WordsOf(data[index + 4..]) by {
        assert data[index..][4..] == data[index + 4..];
      }
      result := result + [word];
      index := index + 4;
    }
  }

  method Bytes(words: seq<bv32>) returns (result: seq<bv8>)
    ensures result == BytesOf(words)
  {
    result := [];
    for i := 0 to |words|
      invariant result + BytesOf(words[i..]) == BytesOf(words)
    {
      assert BytesOf(words[i..]) == Unpack(words[i]) + BytesOf(words[i + 1..]) by {
        assert words[i..][1..] == words[i + 1..];
      }
      result := result + Unpack(words[i]);
    }
  }

  /** "expa", "nd 3", "2-by", "te k". */
  const CONSTANTS: seq<bv32> := [0x61707865, 0x3320646e, 0x79622d32, 0x6b206574]

  const DOUBLE_ROUNDS := 10

  function InitialState(key: seq<bv8>, nonce: seq<bv8>): (r: seq<bv32>)
    requires |key| == 32 && |nonce| == 16
    ensures |r| == 16
  {
    CONSTANTS + WordsOf(key) + WordsOf(nonce)
  }

  /** The first and the last row of the transformed state. */
  function Subkey(key: seq<bv8>, nonce: seq<bv8>, doubleRounds: nat): (r: seq<bv8>)
    requires |key| == 32 && |nonce| == 16
    ensures |r| == 32
  {
    var state := Transform(InitialState(key, nonce), doubleRounds);
    BytesOf(state[..4] + state[12..])
  }

  method TransformInPlace(state: array<bv32>, doubleRounds: nat)
    requires state.Length == 16
    modifies state
    ensures state[..] == Transform(old(state[..]), doubleRounds)
  {
    for round := 0 to doubleRounds
      invariant state[..] == Rounds(old(state[..]), Mix, SLOTS, round)
    {
      DoubleRound(state);
    }
  }

  method NewState(key: seq<bv8>, nonce: seq<bv8>) returns (state: array<bv32>)
    requires |key| == 32 && |nonce| == 16
    ensures fresh(state) && state.Length == 16 && state[..] == InitialState(key, nonce)
  {
    var keyWords := Words(key);
    var nonceWords := Words(nonce);
    var initial := CONSTANTS + keyWords + nonceWords;
    state := new bv32[16](i requires 0 <= i < 16 => initial[i]);
    assert state[..] == initial;
  }

  method Output(state: array<bv32>) returns (subkey: seq<bv8>)
    requires state.Length == 16
    ensures subkey == BytesOf(state[..][..4] + state[..][12..])
  {
    var output := [state[0], state[1], state[2], state[3], state[12], state[13], state[14], state[15]];
    assert output == state[..][..4] + state[..][12..];
    subkey := Bytes(output);
  }

  method Derive(key: seq<bv8>, nonce: seq<bv8>, doubleRounds: nat) returns (subkey: seq<bv8>)
    requires |key| == 32 && |nonce| == 16
    ensures subkey == Subkey(key, nonce, doubleRounds)
  {
    var state := NewState(key, nonce);
    TransformInPlace(state, doubleRounds);
    subkey := Output(state);
  }

  method HChaCha20(key: seq<bv8>, nonce: seq<bv8>) returns (subkey: seq<bv8>)
    requires |key| == 32 && |nonce| == 16
    ensures subkey == Subkey(key, nonce, DOUBLE_ROUNDS)
  {
    subkey := Derive(key, nonce, DOUBLE_ROUNDS);
  }

  // -------------------------------------------------------------- counter nonces

  const NONCE_BYTES := 24
  const COUNTER_BYTES := 8

  function Pow256(n: nat): (r: nat)
    ensures r > 0
  {
    if n == 0 then 1 else 256 * Pow256(n - 1)
  }

  /** The last `length` base-256 digits of `n`, most significant first. */
  function BigEndian(n: nat, length: nat): (r: seq<nat>)
    ensures |r| == length
  {
    if length == 0 then [] else BigEndian(n / 256, length - 1) + [n % 256]
  }

  function ValueOf(bytes: seq<nat>): nat {
    if bytes == [] then 0 else 256 * ValueOf(bytes[..|bytes| - 1]) + bytes[|bytes| - 1]
  }

  lemma {:induction false} ValueOfBigEndian(n: nat, length: nat)
    requires n < Pow256(length)
    ensures ValueOf(BigEndian(n, length)) == n
  {
    if length > 0 {
      ValueOfBigEndian(n / 256, length - 1);
      assert BigEndian(n, length)[..length - 1] == BigEndian(n / 256, length - 1);
    }
  }

  lemma {:induction false} BigEndianOfValue(bytes: seq<nat>)
    requires forall i :: 0 <= i < |bytes| ==> bytes[i] < 256
    ensures BigEndian(ValueOf(bytes), |bytes|) == bytes
  {
    if bytes != [] {
      BigEndianOfValue(bytes[..|bytes| - 1]);
    }
  }

  lemma DigitShift(n: nat, p: nat)
    requires p > 0
    ensures n / 256 / p == n / (256 * p)
  {
    var q, r := n / 256, n % 256;
    var s, t := q / p, q % p;
    assert n == 256 * (s * p + t) + r == (256 * p) * s + (256 * t + r);
    assert 0 <= 256 * t + r < 256 * p;
    QuotientIs(n, 256 * p, s, 256 * t + r);
  }

  lemma MultipleIsFar(d: int, k: int)
    requires d > 0 && k > 0
    ensures d * k >= d
  {
  }

  lemma QuotientIs(n: int, d: int, q: int, r: int)
    requires n == d * q + r && 0 <= r < d
    ensures n / d == q
  {
    var k, m := n / d, n % d;
    assert n == d * k + m && 0 <= m < d;
    assert d * (k - q) == d * k - d * q && d * (q - k) == d * q - d * k;
    if k > q {
      MultipleIsFar(d, k - q);
    } else if k < q {
      MultipleIsFar(d, q - k);
    }
  }

  lemma {:induction false} BigEndianDigit(n: nat, length: nat, i: nat)
    requires i < length
    ensures BigEndian(n, length)[i] == n / Pow256(length - 1 - i) % 256
  {
    if i < length - 1 {
      BigEndianDigit(n / 256, length - 1, i);
      DigitShift(n, Pow256(length - 2 - i));
    }
  }

  function Zeros(n: nat): seq<nat> {
    seq(n, _ => 0)
  }

  function NonceOf(counter: nat): (r: seq<nat>)
    ensures |r| == NONCE_BYTES
  {
    Zeros(NONCE_BYTES - COUNTER_BYTES) + BigEndian(counter, COUNTER_BYTES)
  }

  /** `counter >> 8k & 0xff` is digit k of `counter` in base 256. */
  method CounterNonce(counter: nat) returns (nonce: seq<nat>)
    ensures nonce == NonceOf(counter)
  {
    var bytes := new nat[NONCE_BYTES](_ => 0);
    for index := 0 to COUNTER_BYTES
      invariant forall i :: 0 <= i < NONCE_BYTES ==>
        bytes[i] == if 16 <= i < 16 + index then counter / Pow256(7 - (i - 16)) % 256 else 0
    {
      bytes[16 + index] := counter / Pow256(7 - index) % 256;
    }
    nonce := bytes[..];
    forall i | 0 <= i < NONCE_BYTES ensures nonce[i] == NonceOf(counter)[i] {
      if i >= 16 {
        BigEndianDigit(counter, COUNTER_BYTES, i - 16);
      }
    }
  }

  /** What the seal really uses of a counter: the first 16 bytes go into the
      subkey, the last 8 after four zeros are the nonce of the cipher. */
  function SubkeyNonce(counter: nat): seq<nat> {
    NonceOf(counter)[..16]
  }

  function CipherNonce(counter: nat): seq<nat> {
    Zeros(4) + NonceOf(counter)[NONCE_BYTES - COUNTER_BYTES..]
  }

  /** One connection key always yields one subkey, and under it no two 64-bit
      counters give the same 12-byte cipher nonce. */
  lemma CipherNoncesDiffer(c1: nat, c2: nat)
    requires c1 < Pow256(COUNTER_BYTES) && c2 < Pow256(COUNTER_BYTES)
    ensures SubkeyNonce(c1) == SubkeyNonce(c2) && |CipherNonce(c1)| == 12
    ensures CipherNonce(c1) == CipherNonce(c2) <==> c1 == c2
  {
    assert NonceOf(c1)[..16] == Zeros(16) == NonceOf(c2)[..16];
    assert CipherNonce(c1)[4..] == BigEndian(c1, COUNTER_BYTES);
    assert CipherNonce(c2)[4..] == BigEndian(c2, COUNTER_BYTES);
    ValueOfBigEndian(c1, COUNTER_BYTES);
    ValueOfBigEndian(c2, COUNTER_BYTES);
  }
}
