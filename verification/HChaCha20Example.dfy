/** The published example of HChaCha20, worked through double round by double round. */
module HChaCha20Example {
  import opened HChaCha20

  /** The state by its columns. */
  datatype Square = Square(x: Quad, y: Quad, z: Quad, w: Quad)

  function Flat(s: Square): (state: seq<bv32>)
    ensures |state| == 16
  {
    [s.x.a, s.y.a, s.z.a, s.w.a, s.x.b, s.y.b, s.z.b, s.w.b, s.x.c, s.y.c, s.z.c, s.w.c, s.x.d, s.y.d, s.z.d, s.w.d]
  }

  function Columns(s: Square, f: Quad -> Quad): Square {
    Square(f(s.x), f(s.y), f(s.z), f(s.w))
  }

  /** Each diagonal starts in the first row of its column and runs down to the right. */
  function Diagonals(s: Square, f: Quad -> Quad): Square {
    var p, q := f(Quad(s.x.a, s.y.b, s.z.c, s.w.d)), f(Quad(s.y.a, s.z.b, s.w.c, s.x.d));
    var r, t := f(Quad(s.z.a, s.w.b, s.x.c, s.y.d)), f(Quad(s.w.a, s.x.b, s.y.c, s.z.d));
    Square(Quad(p.a, t.b, r.c, q.d), Quad(q.a, p.b, t.c, r.d), Quad(r.a, q.b, p.c, t.d), Quad(t.a, r.b, q.c, p.d))
  }

  function Double(s: Square): Square {
    Diagonals(Columns(s, Mix), Mix)
  }

  function Repeated(s: Square, step: Square -> Square, n: nat): Square {
    if n == 0 then s else step(Repeated(s, step, n - 1))
  }

  // ------------------------------------------------- the same as sweeps over the slots

  predicate Apart(p: Place, q: Place) {
    && p.a != q.a && p.a != q.b && p.a != q.c && p.a != q.d && p.b != q.a && p.b != q.b && p.b != q.c && p.b != q.d
    && p.c != q.a && p.c != q.b && p.c != q.c && p.c != q.d && p.d != q.a && p.d != q.b && p.d != q.c && p.d != q.d
  }

  lemma OnSlotKeeps(state: seq<bv32>, f: Quad -> Quad, slot: Place, other: Place)
    requires |state| == 16 && Apart(slot, other)
    ensures QuadAt(OnSlot(state, f, slot), other) == QuadAt(state, other)
  {
  }

  /** Slots that share no word are mixed independently. */
  lemma FourSlots(state: seq<bv32>, f: Quad -> Quad, a: Place, b: Place, c: Place, d: Place) returns (r: seq<bv32>)
    requires |state| == 16 && Apart(a, b) && Apart(a, c) && Apart(a, d) && Apart(b, c) && Apart(b, d) && Apart(c, d)
    requires Apart(b, a) && Apart(c, a) && Apart(d, a) && Apart(c, b) && Apart(d, b) && Apart(d, c)
    ensures r == Sweep(state, f, [a, b, c, d]) && |r| == 16
    ensures QuadAt(r, a) == f(QuadAt(state, a)) && QuadAt(r, b) == f(QuadAt(state, b))
    ensures QuadAt(r, c) == f(QuadAt(state, c)) && QuadAt(r, d) == f(QuadAt(state, d))
  {
    assert [a, b, c, d][1..] == [b, c, d] && [b, c, d][1..] == [c, d] && [c, d][1..] == [d] && [d][1..] == [];
    var s1 := OnSlot(state, f, a);
    var s2 := OnSlot(s1, f, b);
    var s3 := OnSlot(s2, f, c);
    r := OnSlot(s3, f, d);
    assert Sweep(s2, f, [c, d]) == Sweep(s3, f, [d]);
    OnSlotKeeps(state, f, a, b);
    OnSlotKeeps(state, f, a, c);
    OnSlotKeeps(state, f, a, d);
    OnSlotKeeps(s1, f, b, a);
    OnSlotKeeps(s1, f, b, c);
    OnSlotKeeps(s1, f, b, d);
    OnSlotKeeps(s2, f, c, a);
    OnSlotKeeps(s2, f, c, b);
    OnSlotKeeps(s2, f, c, d);
    OnSlotKeeps(s3, f, d, a);
    OnSlotKeeps(s3, f, d, b);
    OnSlotKeeps(s3, f, d, c);
  }

  lemma FlatIs(state: seq<bv32>, s: Square)
    requires |state| == 16
    requires Quad(state[0], state[4], state[8], state[12]) == s.x &&
             Quad(state[1], state[5], state[9], state[13]) == s.y
    requires Quad(state[2], state[6], state[10], state[14]) == s.z
    requires Quad(state[3], state[7], state[11], state[15]) == s.w
    ensures state == Flat(s)
  {
  }

  lemma ColumnsAreSwept(s: Square, f: Quad -> Quad, a: Place, b: Place, c: Place, d: Place)
    requires a == Slot(0, 4, 8, 12) && b == Slot(1, 5, 9, 13) && c == Slot(2, 6, 10, 14) && d == Slot(3, 7, 11, 15)
    ensures Sweep(Flat(s), f, [a, b, c, d]) == Flat(Columns(s, f))
  {
    var r := FourSlots(Flat(s), f, a, b, c, d);
    FlatIs(r, Columns(s, f));
  }

  lemma DiagonalsAreSwept(s: Square, f: Quad -> Quad, a: Place, b: Place, c: Place, d: Place)
    requires a == Slot(0, 5, 10, 15) && b == Slot(1, 6, 11, 12) && c == Slot(2, 7, 8, 13) && d == Slot(3, 4, 9, 14)
    ensures Sweep(Flat(s), f, [a, b, c, d]) == Flat(Diagonals(s, f))
  {
    var r := FourSlots(Flat(s), f, a, b, c, d);
    FlatIs(r, Diagonals(s, f));
  }

  lemma {:induction false} SweepInTwo(state: seq<bv32>, f: Quad -> Quad, first: seq<Place>, second: seq<Place>)
    requires |state| == 16
    ensures Sweep(state, f, first + second) == Sweep(Sweep(state, f, first), f, second)
    decreases |first|
  {
    if first == [] {
      assert first + second == second;
    } else {
      assert (first + second)[1..] == first[1..] + second;
      SweepInTwo(OnSlot(state, f, first[0]), f, first[1..], second);
    }
  }

  lemma DoubleIsASweep(s: Square)
    ensures Sweep(Flat(s), Mix, SLOTS) == Flat(Double(s))
  {
    assert SLOTS == SLOTS[..4] + SLOTS[4..];
    assert SLOTS[..4] == [SLOTS[0], SLOTS[1], SLOTS[2], SLOTS[3]];
    assert SLOTS[4..] == [SLOTS[4], SLOTS[5], SLOTS[6], SLOTS[7]];
    SweepInTwo(Flat(s), Mix, SLOTS[..4], SLOTS[4..]);
    ColumnsAreSwept(s, Mix, SLOTS[0], SLOTS[1], SLOTS[2], SLOTS[3]);
    DiagonalsAreSwept(Columns(s, Mix), Mix, SLOTS[4], SLOTS[5], SLOTS[6], SLOTS[7]);
  }

  ghost predicate Sweeps(step: Square -> Square, f: Quad -> Quad, slots: seq<Place>) {
    forall s :: Sweep(Flat(s), f, slots) == Flat(step(s))
  }

  lemma {:induction false} RepeatedIsRounds(s: Square, step: Square -> Square, f: Quad -> Quad, slots: seq<Place>,
                                            n: nat)
    requires Sweeps(step, f, slots)
    ensures Rounds(Flat(s), f, slots, n) == Flat(Repeated(s, step, n))
  {
    if n > 0 {
      RepeatedIsRounds(s, step, f, slots, n - 1);
    }
  }

  lemma {:induction false} Chained(states: seq<Square>, step: Square -> Square, n: nat)
    requires n < |states| && forall k :: 0 <= k < |states| - 1 ==> step(states[k]) == states[k + 1]
    ensures Repeated(states[0], step, n) == states[n]
  {
    if n > 0 {
      Chained(states, step, n - 1);
    }
  }

  // ------------------------------------------------------------------ the ten rounds

  /** The constants, the key 00 to 1f and the nonce of section 2.2.1 of
      draft-irtf-cfrg-xchacha, then the state after each double round. */
  const AFTER_0 := Square(
    Quad(0x61707865, 0x03020100, 0x13121110, 0x09000000), Quad(0x3320646e, 0x07060504, 0x17161514, 0x4a000000),
    Quad(0x79622d32, 0x0b0a0908, 0x1b1a1918, 0x00000000), Quad(0x6b206574, 0x0f0e0d0c, 0x1f1e1d1c, 0x27594131))
  const AFTER_1 := Square(
    Quad(0x7bc434f3, 0x61ba01e7, 0x3af18a5b, 0xc424874b), Quad(0x6a045b3d, 0x8d245f4b, 0xb644b533, 0x61d36895),
    Quad(0xa9b6a717, 0x33708154, 0xfd66db41, 0xe9ff651a), Quad(0xe97301f1, 0xd31e1023, 0x51e9ad3a, 0x923c81f0))
  const AFTER_2 := Square(
    Quad(0x8e19d568, 0x5d8dc91e, 0x0b30ba63, 0xa664c0c1), Quad(0x4f94b2fa, 0xe4843060, 0x4f1b068a, 0x3292fc5b),
    Quad(0xe2e6b081, 0x7c532d54, 0x83ad7706, 0xa73c703f), Quad(0xe3471ee3, 0x9ad42044, 0xc3e09f4c, 0x7137a6f4))
  const AFTER_3 := Square(
    Quad(0x9f53c98b, 0xaa53ec91, 0x0c5e96dd, 0x82fb0b27), Quad(0x87372c3c, 0xa64cd8c6, 0x153f5501, 0x9479489b),
    Quad(0x8995494b, 0x591beafb, 0x83e50579, 0x3ef1765e), Quad(0x2939b691, 0x1a9dbfe2, 0xad694245, 0xff752502))
  const AFTER_4 := Square(
    Quad(0x7b893f75, 0x4e0f0bd5, 0x6990c3af, 0xb0162333), Quad(0xfcb39b21, 0xafa77b58, 0x435ab730, 0x553ccfa7),
    Quad(0x0797b1bf, 0xea5562e0, 0xd68d7249, 0x13cbe911), Quad(0x5f9ec3b3, 0xd7ac0abe, 0x16696500, 0xdbbab6cc))
  const AFTER_5 := Square(
    Quad(0xd1de186c, 0x67e36bdb, 0xab33732a, 0xf3168d27), Quad(0xb0c7b93c, 0xac30ed15, 0xba25d2cf, 0x8d87591b),
    Quad(0xd078df04, 0xbd9ed3dd, 0x4ed7a584, 0x8c80db2f), Quad(0x660e0112, 0x7851b2cd, 0x5bd1985c, 0x44367d8c))
  const AFTER_6 := Square(
    Quad(0x44ac8600, 0x2de236d4, 0x8018e660, 0x4eccc9aa), Quad(0xe23f5411, 0xfddd6beb, 0xe591c0ff, 0x48e81158),
    Quad(0x5ae80570, 0x0e3b8a87, 0x33dec291, 0x45902c7f), Quad(0x5d4f85b8, 0x8c65a958, 0xf507052f, 0xfed52426))
  const AFTER_7 := Square(
    Quad(0x82f32a6d, 0x9375cc72, 0x6a8444e0, 0xa6cec396), Quad(0x8e367c9d, 0xc4a0c4c8, 0xd4b831be, 0x6cf97b4d),
    Quad(0x12b17440, 0xd199bb4b, 0xade4e9ca, 0xfd6c3bb3), Quad(0x1bda71e1, 0x2c035ec8, 0xe44d4801, 0xa74858b5))
  const AFTER_8 := Square(
    Quad(0x4d7f6f44, 0x64520ce3, 0xc0d0af92, 0x0a2bcb7c), Quad(0xe8db7660, 0x2d3d17fc, 0x12244acd, 0x7e657143),
    Quad(0x2268596b, 0x0aa8fb53, 0x5a534192, 0x89b818ce), Quad(0x195222b4, 0x375eb422, 0x6abb8c14, 0xaf9b6644))
  const AFTER_9 := Square(
    Quad(0x2d02a54c, 0x2735a16f, 0xc7a7fbc9, 0x18bb420c), Quad(0x6fdd5da4, 0xfdf971a2, 0x6f108d65, 0x2d4e065f),
    Quad(0x517a3ba9, 0x454a57d9, 0x8ffa82c8, 0x16d4618a), Quad(0x4048cdf3, 0xf1886447, 0xc8267115, 0xc7f61ba4))
  const AFTER_10 := Square(
    Quad(0x423b4182, 0x0aa76448, 0x77e35583, 0xd5e4f9a0), Quad(0xfe7bb227, 0x7954cdf3, 0x83e77c12, 0x53a8748a),
    Quad(0x50420ed3, 0x846acd37, 0xe0076a2d, 0x13c42ec1), Quad(0x737d878a, 0x7b3c58ad, 0xbc6cd0e5, 0xdcecd326))

  lemma Round1()
    ensures Double(AFTER_0) == AFTER_1
  {
  }

  lemma Round2()
    ensures Double(AFTER_1) == AFTER_2
  {
  }

  lemma Round3()
    ensures Double(AFTER_2) == AFTER_3
  {
  }

  lemma Round4()
    ensures Double(AFTER_3) == AFTER_4
  {
  }

  lemma Round5()
    ensures Double(AFTER_4) == AFTER_5
  {
  }

  lemma Round6()
    ensures Double(AFTER_5) == AFTER_6
  {
  }

  lemma Round7()
    ensures Double(AFTER_6) == AFTER_7
  {
  }

  lemma Round8()
    ensures Double(AFTER_7) == AFTER_8
  {
  }

  lemma Round9()
    ensures Double(AFTER_8) == AFTER_9
  {
  }

  lemma Round10()
    ensures Double(AFTER_9) == AFTER_10
  {
  }

  lemma OneMore(s: Square, step: Square -> Square, n: nat, before: Square, after: Square)
    requires Repeated(s, step, n) == before && step(before) == after
    ensures Repeated(s, step, n + 1) == after
  {
  }

  lemma FirstFive(step: Square -> Square)
    requires step(AFTER_0) == AFTER_1 && step(AFTER_1) == AFTER_2 && step(AFTER_2) == AFTER_3
    requires step(AFTER_3) == AFTER_4 && step(AFTER_4) == AFTER_5
    ensures Repeated(AFTER_0, step, 5) == AFTER_5
  {
    OneMore(AFTER_0, step, 0, AFTER_0, AFTER_1);
    OneMore(AFTER_0, step, 1, AFTER_1, AFTER_2);
    OneMore(AFTER_0, step, 2, AFTER_2, AFTER_3);
    OneMore(AFTER_0, step, 3, AFTER_3, AFTER_4);
    OneMore(AFTER_0, step, 4, AFTER_4, AFTER_5);
  }

  lemma LastFive(step: Square -> Square)
    requires Repeated(AFTER_0, step, 5) == AFTER_5
    requires step(AFTER_5) == AFTER_6 && step(AFTER_6) == AFTER_7 && step(AFTER_7) == AFTER_8
    requires step(AFTER_8) == AFTER_9 && step(AFTER_9) == AFTER_10
    ensures Repeated(AFTER_0, step, 10) == AFTER_10
  {
    OneMore(AFTER_0, step, 5, AFTER_5, AFTER_6);
    OneMore(AFTER_0, step, 6, AFTER_6, AFTER_7);
    OneMore(AFTER_0, step, 7, AFTER_7, AFTER_8);
    OneMore(AFTER_0, step, 8, AFTER_8, AFTER_9);
    OneMore(AFTER_0, step, 9, AFTER_9, AFTER_10);
  }

  lemma TenRounds()
    ensures Repeated(AFTER_0, Double, 10) == AFTER_10
  {
    Round1();
    Round2();
    Round3();
    Round4();
    Round5();
    FirstFive(Double);
    Round6();
    Round7();
    Round8();
    Round9();
    Round10();
    LastFive(Double);
  }

  /** Little-endian words of the bytes 00 to 1f, of the nonce, and of the subkey. */
  const KEY_WORDS: seq<bv32> := [
    0x03020100, 0x07060504, 0x0b0a0908, 0x0f0e0d0c, 0x13121110, 0x17161514, 0x1b1a1918, 0x1f1e1d1c]
  const NONCE_WORDS: seq<bv32> := [0x09000000, 0x4a000000, 0x00000000, 0x27594131]
  const SUBKEY_WORDS: seq<bv32> := [
    0x423b4182, 0xfe7bb227, 0x50420ed3, 0x737d878a, 0xd5e4f9a0, 0x53a8748a, 0x13c42ec1, 0xdcecd326]

  lemma TransformedState()
    ensures Transform(Flat(AFTER_0), DOUBLE_ROUNDS) == Flat(AFTER_10)
  {
    forall s ensures Sweep(Flat(s), Mix, SLOTS) == Flat(Double(s)) {
      DoubleIsASweep(s);
    }
    RepeatedIsRounds(AFTER_0, Double, Mix, SLOTS, DOUBLE_ROUNDS);
    TenRounds();
  }

  lemma SubkeyOf(keyWords: seq<bv32>, nonceWords: seq<bv32>, start: seq<bv32>, end: seq<bv32>, n: nat)
    requires |keyWords| == 8 && |nonceWords| == 4 && |start| == 16 && CONSTANTS + keyWords + nonceWords == start
    requires Transform(start, n) == end
    ensures |BytesOf(keyWords)| == 32 && |BytesOf(nonceWords)| == 16
    ensures Subkey(BytesOf(keyWords), BytesOf(nonceWords), n) == BytesOf(end[..4] + end[12..])
  {
    WordsOfBytes(keyWords);
    WordsOfBytes(nonceWords);
  }

  lemma StartAndEnd()
    ensures CONSTANTS + KEY_WORDS + NONCE_WORDS == Flat(AFTER_0)
    ensures Flat(AFTER_10)[..4] + Flat(AFTER_10)[12..] == SUBKEY_WORDS
  {
  }

  /** The words stand for the bytes 00 01 02 03 ... and 82 41 3b 42 ... */
  lemma WordsAreLittleEndian()
    ensures BytesOf(KEY_WORDS)[..4] == [0x00, 0x01, 0x02, 0x03] && BytesOf(KEY_WORDS)[4..8] == [0x04, 0x05, 0x06, 0x07]
    ensures BytesOf(SUBKEY_WORDS)[..4] == [0x82, 0x41, 0x3b, 0x42]
  {
    assert BytesOf(KEY_WORDS) == Unpack(KEY_WORDS[0]) + BytesOf(KEY_WORDS[1..]);
    assert BytesOf(KEY_WORDS[1..]) == Unpack(KEY_WORDS[1]) + BytesOf(KEY_WORDS[1..][1..]);
    assert BytesOf(SUBKEY_WORDS) == Unpack(SUBKEY_WORDS[0]) + BytesOf(SUBKEY_WORDS[1..]);
  }

  /** The published subkey comes out: the constants, the order of the words and the
      number of rounds are those of the standard. */
  lemma PublishedSubkey()
    ensures |BytesOf(KEY_WORDS)| == 32 && |BytesOf(NONCE_WORDS)| == 16
    ensures Subkey(BytesOf(KEY_WORDS), BytesOf(NONCE_WORDS), DOUBLE_ROUNDS) == BytesOf(SUBKEY_WORDS)
  {
    StartAndEnd();
    TransformedState();
    SubkeyOf(KEY_WORDS, NONCE_WORDS, Flat(AFTER_0), Flat(AFTER_10), DOUBLE_ROUNDS);
  }
}
