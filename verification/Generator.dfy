/** The byte generator both ends of the channel run (`MyRand` in MyCrypter.h, MyRand3.java): ChaCha20
    blocks read a byte at a time, reseeded in place. */
module Generator {
  /** The sixteen words: four constants, eight key words, the block counter and three nonce words. */
  type State = s: seq<bv32> | |s| == 16 witness seq(16, _ => 0)

  const COUNTER: int := 12
  const BLOCK: int := 64
  const LINES: int := 4
  const DOUBLE_ROUNDS: int := 10

  // ---------------------------------------------------------------------------------------------
  // The block function of RFC 8439, sections 2.1 to 2.3
  // ---------------------------------------------------------------------------------------------

  predicate Distinct(i: int, j: int, k: int, l: int) {
    && 0 <= i < 16 && 0 <= j < 16 && 0 <= k < 16 && 0 <= l < 16
    && i != j && i != k && i != l && j != k && j != l && k != l
  }

  type Shift = n: int | n == 16 || n == 12 || n == 8 || n == 7 witness 16

  function Rotated(v: bv32, n: Shift): bv32 {
    if n == 16 then v.RotateLeft(16)
    else if n == 12 then v.RotateLeft(12)
    else if n == 8 then v.RotateLeft(8)
    else v.RotateLeft(7)
  }

  function Sum(a: bv32, b: bv32): bv32 { a + b }

  function Mixed(d: bv32, a: bv32, n: Shift): bv32 { Rotated(d ^ a, n) }

  /** Section 2.1: one line of the quarter round, `a += b; d ^= a; d <<<= n`. */
  function Line(x: State, a: int, b: int, d: int, n: Shift): State
    requires 0 <= a < 16 && 0 <= b < 16 && 0 <= d < 16
  {
    var y := x[a := Sum(x[a], x[b])];
    y[d := Mixed(y[d], y[a], n)]
  }

  /** The first `k` of the four lines of a quarter round. */
  function Lines(x: State, a: int, b: int, c: int, d: int, k: nat): State
    requires Distinct(a, b, c, d)
  {
    if k == 0 then x
    else
      var y := Lines(x, a, b, c, d, k - 1);
      if k == 1 then Line(y, a, b, d, 16)
      else if k == 2 then Line(y, c, d, b, 12)
      else if k == 3 then Line(y, a, b, d, 8)
      else Line(y, c, d, b, 7)
  }

  /** Section 2.2: QUARTERROUND(a, b, c, d) on a state. */
  function QuarterRound(x: State, a: int, b: int, c: int, d: int): State
    requires Distinct(a, b, c, d)
  {
    Lines(x, a, b, c, d, LINES)
  }

  /** The quarter round of section 2.1.1, on the first four words of any state. */
  lemma QuarterVector(x: State)
    requires x[0] == 0x11111111 && x[1] == 0x01020304 && x[2] == 0x9b8d6f43 && x[3] == 0x01234567
    ensures QuarterRound(x, 0, 1, 2, 3)
         == x[0 := 0xea2a92f4][1 := 0xcb1cf8ce][2 := 0x4581472e][3 := 0x5881c4bb]
  {
    var x1 := Line(x, 0, 1, 3, 16);
    var x2 := Line(x1, 2, 3, 1, 12);
    var x3 := Line(x2, 0, 1, 3, 8);
    var x4 := Line(x3, 2, 3, 1, 7);
    assert x1[0] == 0x12131415 && x1[3] == 0x51721330;
    assert Lines(x, 0, 1, 2, 3, 1) == x1;
    assert Lines(x, 0, 1, 2, 3, 2) == x2;
    assert Lines(x, 0, 1, 2, 3, 3) == x3;
    assert Lines(x, 0, 1, 2, 3, 4) == x4;
  }

  function ColumnRounds(x: State): State {
    QuarterRound(QuarterRound(QuarterRound(QuarterRound(x,
      0, 4, 8, 12), 1, 5, 9, 13), 2, 6, 10, 14), 3, 7, 11, 15)
  }

  function DiagonalRounds(x: State): State {
    QuarterRound(QuarterRound(QuarterRound(QuarterRound(x,
      0, 5, 10, 15), 1, 6, 11, 12), 2, 7, 8, 13), 3, 4, 9, 14)
  }

  /** Section 2.3: `n` times the inner block. */
  function InnerBlocks(x: State, n: nat): State {
    if n == 0 then x else DiagonalRounds(ColumnRounds(InnerBlocks(x, n - 1)))
  }

  /** Byte `k` of a word, least significant first. */
  function LittleEndian(v: bv32, k: int): bv8 {
    if k == 0 then (v & 0xff) as bv8
    else if k == 1 then ((v >> 8) & 0xff) as bv8
    else if k == 2 then ((v >> 16) & 0xff) as bv8
    else ((v >> 24) & 0xff) as bv8
  }

  /** Section 2.3: the sum of the state and the state after twenty rounds, serialized. */
  function BlockWord(s: State, j: int): bv32
    requires 0 <= j < 16
  {
    Sum(InnerBlocks(s, DOUBLE_ROUNDS)[j], s[j])
  }

  function BlockByte(s: State, n: int): bv8
    requires 0 <= n < BLOCK
  {
    LittleEndian(BlockWord(s, n / 4), n % 4)
  }

  // ---------------------------------------------------------------------------------------------
  // The generator as a position in a stateless stream
  // ---------------------------------------------------------------------------------------------

  function Advanced(s: State): State {
    s[COUNTER := s[COUNTER] + 1]
  }

  /** The state with its counter advanced `n` times. */
  function CounterPlus(s: State, n: nat): State {
    if n == 0 then s else Advanced(CounterPlus(s, n - 1))
  }

  /** Byte `n` of the stream of a state: byte n mod 64 of the block whose counter has advanced by
      n div 64. */
  function StreamByte(s: State, n: nat): bv8 {
    BlockByte(CounterPlus(s, n / BLOCK), n % BLOCK)
  }

  /** The generator that has read `read` bytes of the stream of a state. */
  datatype Gen = Gen(base: State, read: nat)

  function Drop(g: Gen, n: nat): Gen {
    Gen(g.base, g.read + n)
  }

  /** What the call after `n` others returns. */
  function ByteNo(g: Gen, n: nat): bv8 {
    StreamByte(g.base, g.read + n)
  }

  lemma ByteDropped(g: Gen, n: nat, before: nat)
    requires before == n + 1
    ensures ByteNo(Drop(g, 1), n) == ByteNo(g, before)
  {
    assert Drop(g, 1).read + n == g.read + before;
  }

  /** Blocks begun when so many bytes have been read. */
  function Begun(read: nat): nat {
    (read + BLOCK - 1) / BLOCK
  }

  function StateOf(g: Gen): State {
    CounterPlus(g.base, Begun(g.read))
  }

  /** `korr`: the checksum goes into the first nonce word, and the stream starts again from there, four
      bytes in. Nothing is left of the block being read. */
  function Corrected(g: Gen, ks: bv8): Gen {
    Gen(Crossed(StateOf(g), ks), 4)
  }

  function Crossed(s: State, ks: bv8): State {
    s[13 := s[13] ^ (ks as bv32)]
  }

  type Keys = k: seq<bv32> | |k| == 4 witness seq(4, _ => 0)

  function NullState(k: Keys): State {
    [0x61707865, 0x3320646e, 0x79622d32, 0x6b206574] + k + k + [0, 0, 0, 0]
  }

  function WordOf(seed: seq<bv8>, i: nat): bv32
    requires 4 * i + 3 < |seed|
  {
    (seed[4 * i] as bv32) | ((seed[4 * i + 1] as bv32) << 8)
    | ((seed[4 * i + 2] as bv32) << 16) | ((seed[4 * i + 3] as bv32) << 24)
  }

  /** The first `n` words of the seed mixed into the key words, round and round. */
  function Seeded(s: State, seed: seq<bv8>, n: nat): State
    requires 4 * n <= |seed|
  {
    if n == 0 then s
    else
      var s' := Seeded(s, seed, n - 1);
      s'[4 + (n - 1) % 8 := s'[4 + (n - 1) % 8] ^ WordOf(seed, n - 1)]
  }

  lemma SeededNext(s: State, seed: seq<bv8>, n: nat)
    requires 4 * n + 3 < |seed|
    ensures
      var s' := Seeded(s, seed, n);
      Seeded(s, seed, n + 1) == s'[4 + n % 8 := s'[4 + n % 8] ^ WordOf(seed, n)]
  {
  }

  function SeedState(k: Keys, seed: seq<bv8>): State {
    Seeded(NullState(k), seed, |seed| / 4)[COUNTER := 0]
  }

  function Reseeded(k: Keys, seed: seq<bv8>): Gen {
    Gen(SeedState(k, seed), 4)
  }

  // ---------------------------------------------------------------------------------------------
  // The class
  // ---------------------------------------------------------------------------------------------

  /** The rotations as the C++ macro writes them. */
  lemma MacroRotates(v: bv32)
    ensures (v << 16) | (v >> 16) == Rotated(v, 16) && (v << 12) | (v >> 20) == Rotated(v, 12)
    ensures (v << 8) | (v >> 24) == Rotated(v, 8) && (v << 7) | (v >> 25) == Rotated(v, 7)
  {
  }

  /** With all begun blocks read, the next 64 bytes are the block of the state. */
  lemma NextBlock(g: Gen)
    requires g.read % BLOCK == 0
    ensures forall i: nat :: i < BLOCK ==> ByteNo(g, i) == BlockByte(StateOf(g), i)
    ensures StateOf(Drop(g, 1)) == Advanced(StateOf(g))
  {
    forall i: nat | i < BLOCK
      ensures ByteNo(g, i) == BlockByte(StateOf(g), i)
    {
      assert (g.read + i) / BLOCK == Begun(g.read) && (g.read + i) % BLOCK == i;
    }
  }

  lemma SameBlock(g: Gen)
    requires g.read % BLOCK != 0
    ensures StateOf(Drop(g, 1)) == StateOf(g)
  {
    assert Begun(g.read + 1) == Begun(g.read);
  }

  class MyRand {
    const state: array<bv32>
    const buf: array<bv8>
    var bufPos: nat
    const k: Keys

    /** What the buffer refines. */
    ghost var value: Gen

    /** The state is the value's, and every byte not yet read is the stream's. */
    ghost predicate Valid()
      reads this, state, buf
    {
      && state.Length == 16 && buf.Length == BLOCK && 0 < bufPos <= BLOCK
      && state[..] == StateOf(value)
      && (value.read + BLOCK - bufPos) % BLOCK == 0
      && Buffered(value, bufPos)
    }

    /** From a position on, the buffer holds what the generator gives next. */
    ghost predicate Buffered(g: Gen, pos: nat)
      requires buf.Length == BLOCK
      reads buf
    {
      forall i: int :: pos <= i < BLOCK ==> buf[i] == ByteNo(g, i - pos)
    }

    constructor (keys: Keys)
      ensures Valid() && k == keys && fresh(state) && fresh(buf)
      ensures value == Gen(NullState(keys), 0)
    {
      k := keys;
      state := new bv32[16](_ => 0);
      buf := new bv8[BLOCK](_ => 0);
      bufPos := BLOCK;
      new;
      NullRand();
    }

    method NullRand()
      requires state.Length == 16 && buf.Length == BLOCK
      modifies this`bufPos, this`value, state
      ensures Valid() && value == Gen(NullState(k), 0)
    {
      state[0] := 0x61707865;
      state[1] := 0x3320646e;
      state[2] := 0x79622d32;
      state[3] := 0x6b206574;
      for i := 0 to 4
        invariant state[..4] == [0x61707865, 0x3320646e, 0x79622d32, 0x6b206574]
        invariant state[4..4 + i] == k[..i] && state[8..8 + i] == k[..i]
      {
        state[4 + i] := k[i];
        state[8 + i] := k[i];
      }
      state[12] := 0;
      state[13] := 0;
      state[14] := 0;
      state[15] := 0;
      assert state[..] == state[..4] + state[4..8] + state[8..12] + state[12..];
      Restart(NullState(k));
    }

    /** Throws the buffer away: the next byte is the first of the state's own block. */
    method Restart(ghost s: State)
      requires state.Length == 16 && buf.Length == BLOCK && state[..] == s
      modifies this`bufPos, this`value
      ensures Valid() && value == Gen(s, 0) && bufPos == BLOCK
    {
      bufPos := BLOCK;
      value := Gen(s, 0);
    }

    static method QrLine(x: array<bv32>, a: int, b: int, d: int, n: Shift)
      requires x.Length == 16 && 0 <= a < 16 && 0 <= b < 16 && 0 <= d < 16
      modifies x
      ensures x[..] == Line(old(x[..]), a, b, d, n)
    {
      x[a] := Sum(x[a], x[b]);
      x[d] := Mixed(x[d], x[a], n);
    }

    static method Qr(x: array<bv32>, a: int, b: int, c: int, d: int)
      requires x.Length == 16 && Distinct(a, b, c, d)
      modifies x
      ensures x[..] == QuarterRound(old(x[..]), a, b, c, d)
    {
      ghost var s: State := x[..];
      assert x[..] == Lines(s, a, b, c, d, 0);
      QrLine(x, a, b, d, 16);
      assert x[..] == Lines(s, a, b, c, d, 1);
      QrLine(x, c, d, b, 12);
      assert x[..] == Lines(s, a, b, c, d, 2);
      QrLine(x, a, b, d, 8);
      assert x[..] == Lines(s, a, b, c, d, 3);
      QrLine(x, c, d, b, 7);
      assert x[..] == Lines(s, a, b, c, d, 4);
    }

    static method InnerBlock(x: array<bv32>)
      requires x.Length == 16
      modifies x
      ensures x[..] == DiagonalRounds(ColumnRounds(old(x[..])))
    {
      Qr(x, 0, 4, 8, 12);
      Qr(x, 1, 5, 9, 13);
      Qr(x, 2, 6, 10, 14);
      Qr(x, 3, 7, 11, 15);
      Qr(x, 0, 5, 10, 15);
      Qr(x, 1, 6, 11, 12);
      Qr(x, 2, 7, 8, 13);
      Qr(x, 3, 4, 9, 14);
    }

    /** Fills the buffer with the block of the state, byte for byte that of section 2.3, and advances the
        counter. */
    method GenBlock()
      requires state.Length == 16 && buf.Length == BLOCK
      modifies this`bufPos, state, buf
      ensures state[..] == Advanced(old(state[..])) && bufPos == 0
      ensures forall i: int :: 0 <= i < BLOCK ==> buf[i] == BlockByte(old(state[..]), i)
    {
      ghost var s: State := state[..];
      var x := TwentyRounds();
      Serialize(x);
      state[COUNTER] := state[COUNTER] + 1;
      bufPos := 0;
    }

    method TwentyRounds() returns (x: array<bv32>)
      requires state.Length == 16
      ensures fresh(x) && x.Length == 16 && x[..] == InnerBlocks(state[..], DOUBLE_ROUNDS)
    {
      ghost var s: State := state[..];
      x := new bv32[16](i requires 0 <= i < 16 reads this, state => state[i]);
      assert x[..] == s;
      for i := 0 to DOUBLE_ROUNDS
        invariant state[..] == s && x[..] == InnerBlocks(s, i)
      {
        InnerBlock(x);
      }
    }

    method Serialize(x: array<bv32>)
      requires state.Length == 16 && buf.Length == BLOCK && x.Length == 16 && x != state
      requires x[..] == InnerBlocks(state[..], DOUBLE_ROUNDS)
      modifies buf
      ensures forall i: int :: 0 <= i < BLOCK ==> buf[i] == BlockByte(state[..], i)
    {
      ghost var s: State := state[..];
      for i := 0 to 16
        invariant forall j: int :: 0 <= j < i ==> WordHeld(BlockWord(s, j), j)
      {
        assert Sum(x[i], state[i]) == BlockWord(s, i);
        WriteWord(Sum(x[i], state[i]), i);
      }
      BufferIsBlock(s);
    }

    /** The buffer holds this word at its four places. */
    ghost predicate WordHeld(v: bv32, j: int)
      requires buf.Length == BLOCK && 0 <= j < 16
      reads buf
    {
      && buf[4 * j] == LittleEndian(v, 0) && buf[4 * j + 1] == LittleEndian(v, 1)
      && buf[4 * j + 2] == LittleEndian(v, 2) && buf[4 * j + 3] == LittleEndian(v, 3)
    }

    lemma BufferIsBlock(s: State)
      requires buf.Length == BLOCK && forall j: int :: 0 <= j < 16 ==> WordHeld(BlockWord(s, j), j)
      ensures forall i: int :: 0 <= i < BLOCK ==> buf[i] == BlockByte(s, i)
    {
      forall n: int | 0 <= n < BLOCK
        ensures buf[n] == BlockByte(s, n)
      {
        assert WordHeld(BlockWord(s, n / 4), n / 4);
      }
    }

    method WriteWord(v: bv32, i: int)
      requires buf.Length == BLOCK && 0 <= i < 16
      modifies buf
      ensures WordHeld(v, i)
      ensures forall j: int, w: bv32 :: 0 <= j < 16 && j != i && old(WordHeld(w, j)) ==> WordHeld(w, j)
    {
      buf[i * 4 + 0] := (v & 0xff) as bv8;
      buf[i * 4 + 1] := ((v >> 8) & 0xff) as bv8;
      buf[i * 4 + 2] := ((v >> 16) & 0xff) as bv8;
      buf[i * 4 + 3] := ((v >> 24) & 0xff) as bv8;
    }

    method Refill()
      requires Valid() && bufPos == BLOCK
      modifies this`bufPos, state, buf
      ensures bufPos == 0 && state[..] == StateOf(Drop(value, 1)) && Buffered(value, 0)
    {
      NextBlock(value);
      GenBlock();
    }

    lemma BufferedNext(g: Gen, pos: nat)
      requires buf.Length == BLOCK && Buffered(g, pos)
      ensures Buffered(Drop(g, 1), pos + 1)
    {
      forall i: int | pos + 1 <= i < BLOCK
        ensures buf[i] == ByteNo(Drop(g, 1), i - (pos + 1))
      {
        assert buf[i] == ByteNo(g, i - pos);
        ByteDropped(g, i - (pos + 1), i - pos);
      }
    }

    /** The next byte of the stream. */
    method Rand() returns (r: bv8)
      requires Valid()
      modifies this`bufPos, this`value, state, buf
      ensures Valid() && r == ByteNo(old(value), 0) && value == Drop(old(value), 1)
    {
      if bufPos >= BLOCK {
        Refill();
      } else {
        SameBlock(value);
      }
      r := TakeByte();
    }

    method TakeByte() returns (r: bv8)
      requires state.Length == 16 && buf.Length == BLOCK && bufPos < BLOCK
      requires state[..] == StateOf(Drop(value, 1)) && Buffered(value, bufPos)
      requires (value.read + BLOCK - bufPos) % BLOCK == 0
      modifies this`bufPos, this`value
      ensures Valid() && r == ByteNo(old(value), 0) && value == Drop(old(value), 1)
    {
      r := buf[bufPos];
      BufferedNext(value, bufPos);
      bufPos := bufPos + 1;
      value := Drop(value, 1);
    }

    method SkipFour()
      requires Valid()
      modifies this`bufPos, this`value, state, buf
      ensures Valid() && value == Drop(old(value), 4)
    {
      var _ := Rand();
      var _ := Rand();
      var _ := Rand();
      var _ := Rand();
    }

    method Srand(seed: seq<bv8>)
      requires Valid()
      modifies this`bufPos, this`value, state, buf
      ensures Valid() && value == Reseeded(k, seed)
    {
      NullRand();
      MixSeed(seed);
      state[COUNTER] := 0;
      Restart(SeedState(k, seed));
      SkipFour();
    }

    method MixSeed(seed: seq<bv8>)
      requires state.Length == 16
      modifies state
      ensures state[..] == Seeded(old(state[..]), seed, |seed| / 4)
    {
      ghost var s: State := state[..];
      var words := |seed| / 4;
      for i := 0 to words
        invariant state[..] == Seeded(s, seed, i)
      {
        SeededNext(s, seed, i);
        MixWord(4 + i % 8, WordOf(seed, i));
      }
    }

    method MixWord(at: nat, word: bv32)
      requires state.Length == 16 && at < 16
      modifies state
      ensures state[..] == old(state[..])[at := old(state[..])[at] ^ word]
    {
      state[at] := state[at] ^ word;
    }

    method Korr(ks: bv8)
      requires Valid()
      modifies this`bufPos, this`value, state, buf
      ensures Valid() && value == Corrected(old(value), ks)
    {
      ghost var s := StateOf(value);
      state[13] := state[13] ^ (ks as bv32);
      Restart(Crossed(s, ks));
      SkipFour();
    }
  }
}
