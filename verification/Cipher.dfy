/** The message codec both ends of the channel share: bytes masked by the generator, a checksum that
    also reseeds it, and the packing (`codBuf`, `decodBuf` of MyCrypter.h and MyCripter.java). */
module Cipher {
  import opened Generator
  import opened Packing

  // ---------------------------------------------------------------------------------------------
  // The codec as functions of the generator
  // ---------------------------------------------------------------------------------------------

  function XorAll(m: seq<bv8>): bv8 {
    if m == [] then 0 else XorAll(m[..|m| - 1]) ^ m[|m| - 1]
  }

  /** The next `n` bytes of a generator. */
  function Take(g: Gen, n: nat): (key: seq<bv8>)
    ensures |key| == n
  {
    if n == 0 then [] else Take(g, n - 1) + [ByteNo(g, n - 1)]
  }

  /** Every byte of a message crossed with the key's. */
  function Masked(key: seq<bv8>, m: seq<bv8>): (c: seq<bv8>)
    requires |m| <= |key|
    ensures |c| == |m|
  {
    seq(|m|, i requires 0 <= i < |m| => m[i] ^ key[i])
  }

  datatype Coded = Coded(gen: Gen, wire: seq<bv8>)

  function Code(side: Side, g: Gen, m: seq<bv8>): Coded {
    if m == [] then Coded(g, [])
    else Coded(Corrected(Drop(g, |m|), XorAll(m)), CodedWith(side, Take(g, |m|), m))
  }

  function CodedWith(side: Side, key: seq<bv8>, m: seq<bv8>): seq<bv8>
    requires |m| <= |key|
  {
    Packed(side, Masked(key, m) + [XorAll(m)])
  }

  datatype Reading = Rejected | Accepted(message: seq<bv8>)

  datatype Decoding = Decoding(gen: Gen, reading: Reading)

  /** The server's length is a short, and it reads no further; a wire is whole blocks and a marker. */
  predicate Framed(side: Side, wire: seq<bv8>) {
    5 <= Counted(side, |wire|) && (Counted(side, |wire|) - 1) % 4 == 0
  }

  function Frame(side: Side, wire: seq<bv8>): (frame: seq<bv8>)
    requires Framed(side, wire)
    ensures 5 <= |frame|
  {
    wire[..Counted(side, |wire|)]
  }

  /** The bytes of all blocks of a frame. */
  function Payload(frame: seq<bv8>): seq<bv8>
    requires 5 <= |frame|
  {
    Unpacked(frame, (|frame| - 1) / 4)
  }

  /** How many of them are the message; the next one is the checksum. */
  function Size(frame: seq<bv8>): (n: nat)
    requires 5 <= |frame|
    ensures n < |Payload(frame)|
  {
    HeldBounds((|frame| - 1) / 4, frame[|frame| - 1]);
    Held((|frame| - 1) / 4, frame[|frame| - 1]) - 1
  }

  /** What a key makes of a frame. */
  function ReadWith(key: seq<bv8>, frame: seq<bv8>): Reading
    requires 5 <= |frame| && |key| == Size(frame)
  {
    var n := Size(frame);
    var m := Masked(key, Payload(frame)[..n]);
    if XorAll(m) != Payload(frame)[n] then Rejected else Accepted(m)
  }

  /** What the receiver makes of a wire. */
  function Decode(side: Side, g: Gen, wire: seq<bv8>): Decoding {
    if !Framed(side, wire) then Decoding(g, Rejected)
    else
      var n := Size(Frame(side, wire));
      var reading := ReadWith(Take(g, n), Frame(side, wire));
      Decoding(Moved(Drop(g, n), reading), reading)
  }

  /** The generator goes on from the checksum if the message was good. */
  function Moved(g: Gen, reading: Reading): Gen {
    match reading
    case Rejected => g
    case Accepted(m) => Corrected(g, XorAll(m))
  }

  // ---------------------------------------------------------------------------------------------
  // Round trip
  // ---------------------------------------------------------------------------------------------

  lemma MaskTwice(key: seq<bv8>, m: seq<bv8>)
    requires |m| <= |key|
    ensures Masked(key, Masked(key, m)) == m
  {
  }

  /** The lengths that sender and receiver can handle with their 16-bit counts. */
  predicate Fits(sender: Side, receiver: Side, n: nat) {
    (sender == Server ==> n <= 98300) && (receiver == Server ==> n <= 24572)
  }

  lemma FitsFrame(receiver: Side, wire: seq<bv8>)
    requires 5 <= |wire| && (|wire| - 1) % 4 == 0 && (receiver == Server ==> |wire| <= 0x7fff)
    ensures Framed(receiver, wire) && Frame(receiver, wire) == wire
  {
    assert Counted(receiver, |wire|) == |wire|;
  }

  lemma FrameBack(masked: seq<bv8>, cs: bv8)
    ensures Size(Wire(masked + [cs])) == |masked|
    ensures Payload(Wire(masked + [cs]))[..|masked|] == masked && Payload(Wire(masked + [cs]))[|masked|] == cs
  {
    UnpackMessage(masked, cs);
    var w := Wire(masked + [cs]);
    SizePayload(w);
    assert (|w| - 1) / 4 == Blocks(|masked| + 1);
  }

  lemma SizePayload(frame: seq<bv8>)
    requires 5 <= |frame|
    ensures
      var blocks := (|frame| - 1) / 4;
      Size(frame) == Held(blocks, frame[|frame| - 1]) - 1 && Payload(frame) == Unpacked(frame, blocks)
  {
  }

  /** With the sender's own key the receiver reads the message. */
  lemma ReadBack(sender: Side, receiver: Side, key: seq<bv8>, m: seq<bv8>)
    requires m != [] && |key| == |m| && Fits(sender, receiver, |m|)
    ensures
      var w := CodedWith(sender, key, m);
      Framed(receiver, w) && Frame(receiver, w) == w && Size(w) == |m| && ReadWith(key, w) == Accepted(m)
  {
    var masked, cs := Masked(key, m), XorAll(m);
    PackedIsWire(sender, masked + [cs]);
    FitsFrame(receiver, Wire(masked + [cs]));
    FrameBack(masked, cs);
    MaskTwice(key, m);
  }

  lemma RoundTrip(sender: Side, receiver: Side, g: Gen, m: seq<bv8>)
    requires m != [] && Fits(sender, receiver, |m|)
    ensures Decode(receiver, g, Code(sender, g, m).wire) == Decoding(Code(sender, g, m).gen, Accepted(m))
  {
    ReadBack(sender, receiver, Take(g, |m|), m);
  }

  lemma ReadLength(key: seq<bv8>, frame: seq<bv8>)
    requires 5 <= |frame| && |key| == Size(frame) && ReadWith(key, frame).Accepted?
    ensures |ReadWith(key, frame).message| == Size(frame)
  {
  }

  lemma SizeBound(frame: seq<bv8>)
    requires 5 <= |frame|
    ensures Size(frame) < 3 * ((|frame| - 1) / 4)
  {
    HeldBounds((|frame| - 1) / 4, frame[|frame| - 1]);
  }

  lemma FrameBound(side: Side, wire: seq<bv8>)
    requires Framed(side, wire)
    ensures |Frame(side, wire)| <= |wire| && (side == Server ==> |Frame(side, wire)| <= 0x7fff)
  {
  }

  lemma DecodedLength(side: Side, g: Gen, wire: seq<bv8>)
    requires Decode(side, g, wire).reading.Accepted?
    ensures |Decode(side, g, wire).reading.message| < 3 * ((|wire| - 1) / 4)
    ensures side == Server ==> |Decode(side, g, wire).reading.message| <= 24572
  {
    var frame := Frame(side, wire);
    ReadLength(Take(g, Size(frame)), frame);
    SizeBound(frame);
    FrameBound(side, wire);
  }

  /** For every generator state and every message the receiver gets the message back, and both ends stay
      in step, if and only if the message fits the 16-bit counts of the ends that use them. */
  lemma CodecRoundTrip(sender: Side, receiver: Side, g: Gen, m: seq<bv8>)
    requires m != []
    ensures Decode(receiver, g, Code(sender, g, m).wire) == Decoding(Code(sender, g, m).gen, Accepted(m))
       <==> Fits(sender, receiver, |m|)
  {
    if Fits(sender, receiver, |m|) {
      RoundTrip(sender, receiver, g, m);
    } else {
      var wire := Code(sender, g, m).wire;
      TooLong(sender, g, m);
      if Decode(receiver, g, wire).reading.Accepted? {
        DecodedLength(receiver, g, wire);
      }
    }
  }

  lemma TooLong(sender: Side, g: Gen, m: seq<bv8>)
    requires m != []
    ensures sender == Server && |m| > 98300 ==> |Code(sender, g, m).wire| <= 4 * 32767 + 1
  {
  }

  // ---------------------------------------------------------------------------------------------
  // The codec as it runs
  // ---------------------------------------------------------------------------------------------

  method CodBuf(randGen: MyRand, data: seq<bv8>, side: Side) returns (wire: seq<bv8>)
    requires randGen.Valid()
    modifies randGen`bufPos, randGen`value, randGen.state, randGen.buf
    ensures randGen.Valid()
    ensures Coded(randGen.value, wire) == Code(side, old(randGen.value), data)
  {
    if |data| <= 0 {
      return [];
    }
    ghost var g := randGen.value;
    var data2 := new bv8[|data|](i requires 0 <= i < |data| => data[i]);
    assert data2[..] == data && data[..|data|] == data;
    var cs := Checksum(data);
    var _ := Mask(randGen, data2, |data|);
    randGen.Korr(cs);
    MaskedAll(Take(g, |data|), data, data2[..], |data|);
    assert data2[..][..|data|] == data2[..];
    wire := ToBase64(data2[..], cs, side);
  }

  /** The checksum part of the encoder's loop. */
  method Checksum(data: seq<bv8>) returns (cs: bv8)
    ensures cs == XorAll(data)
  {
    cs := 0;
    for ii := 0 to |data|
      invariant cs == XorAll(data[..ii])
    {
      assert data[..ii + 1][..ii] == data[..ii];
      cs := cs ^ data[ii];
    }
    assert data[..|data|] == data;
  }

  lemma {:induction false} TakeAt(g: Gen, n: nat, i: nat)
    requires i < n
    ensures Take(g, n)[i] == ByteNo(g, i)
  {
    if i < n - 1 {
      TakeAt(g, n - 1, i);
    }
  }

  lemma DropByte(g: Gen, i: nat)
    ensures ByteNo(Drop(g, i), 0) == ByteNo(g, i)
  {
  }

  /** The masking loop, in place; it also sums what it leaves. */
  method Mask(randGen: MyRand, bytes: array<bv8>, n: nat) returns (ks: bv8)
    requires randGen.Valid() && n <= bytes.Length && bytes != randGen.buf
    modifies randGen`bufPos, randGen`value, randGen.state, randGen.buf, bytes
    ensures randGen.Valid() && randGen.value == Drop(old(randGen.value), n)
    ensures MaskedTo(Take(old(randGen.value), n), old(bytes[..]), bytes[..], n) && ks == XorAll(bytes[..n])
  {
    ghost var g := randGen.value;
    ghost var key := Take(g, n);
    ghost var was := bytes[..];
    ks := 0;
    for ii := 0 to n
      invariant randGen.Valid() && randGen.value == Drop(g, ii)
      invariant MaskedTo(key, was, bytes[..], ii) && ks == XorAll(bytes[..][..ii])
    {
      ghost var before := bytes[..];
      TakeAt(g, n, ii);
      DropByte(g, ii);
      MaskOne(randGen, bytes, ii);
      MaskedToNext(key, was, before, ii, before[ii] ^ key[ii]);
      ks := Summed(ks, before, ii, bytes[ii]);
    }
    assert bytes[..n] == bytes[..][..n];
  }

  method Summed(ks: bv8, ghost m: seq<bv8>, i: nat, b: bv8) returns (r: bv8)
    requires i < |m| && ks == XorAll(m[..i])
    ensures r == XorAll(m[i := b][..i + 1])
  {
    XorNext(m, i, b);
    r := ks ^ b;
  }

  /** One byte of the loop. */
  method MaskOne(randGen: MyRand, bytes: array<bv8>, i: nat)
    requires randGen.Valid() && i < bytes.Length && bytes != randGen.buf
    modifies randGen`bufPos, randGen`value, randGen.state, randGen.buf, bytes
    ensures randGen.Valid() && randGen.value == Drop(old(randGen.value), 1)
    ensures bytes[..] == old(bytes[..])[i := old(bytes[..])[i] ^ ByteNo(old(randGen.value), 0)]
  {
    var r := randGen.Rand();
    bytes[i] := bytes[i] ^ r;
  }

  /** The first `i` bytes are masked, the others as they were. */
  ghost predicate MaskedTo(key: seq<bv8>, was: seq<bv8>, now: seq<bv8>, i: nat) {
    && |now| == |was| && i <= |was| && i <= |key|
    && (forall k: nat :: k < i ==> now[k] == was[k] ^ key[k])
    && (forall k: nat :: i <= k < |was| ==> now[k] == was[k])
  }

  lemma MaskedToNext(key: seq<bv8>, was: seq<bv8>, now: seq<bv8>, i: nat, b: bv8)
    requires MaskedTo(key, was, now, i) && i < |was| && i < |key| && b == now[i] ^ key[i]
    ensures MaskedTo(key, was, now[i := b], i + 1)
  {
  }

  lemma MaskedAll(key: seq<bv8>, was: seq<bv8>, now: seq<bv8>, n: nat)
    requires MaskedTo(key, was, now, n)
    ensures now[..n] == Masked(key, was[..n])
  {
  }

  lemma XorNext(m: seq<bv8>, i: nat, b: bv8)
    requires i < |m|
    ensures XorAll(m[i := b][..i + 1]) == XorAll(m[..i]) ^ b
  {
    assert m[i := b][..i + 1][..i] == m[..i];
  }

  /** The bytes of a request, swapped back and unpacked, if it has the right shape. */
  method UnpackRequest(request: seq<bv8>, side: Side) returns (framed: bool, bytes: array<bv8>, n: nat)
    ensures fresh(bytes) && framed == Framed(side, request)
    ensures framed ==> bytes[..] == Payload(Frame(side, request)) && n == Size(Frame(side, request))
  {
    framed, bytes, n := false, new bv8[0], 0;
    var jj := Counted(side, |request|);
    if jj < 5 || (jj - 1) % 4 != 0 {
      return;
    }
    bytes, n := UnpackFrame(Frame(side, request));
    framed := true;
  }

  method UnpackFrame(frame: seq<bv8>) returns (bytes: array<bv8>, n: nat)
    requires 5 <= |frame|
    ensures fresh(bytes) && bytes[..] == Payload(frame) && n == Size(frame)
  {
    var jj := |frame|;
    var requbuf := new bv8[jj](i requires 0 <= i < jj => frame[i]);
    Replace(requbuf, jj, 0x2c, 0x5c);
    var reshta := Remainder(requbuf[jj - 1]);
    SameRemainder(frame[jj - 1]);
    var blocks := (jj - 1) / 4;
    if reshta == 0 {
      jj := blocks * 3;
    } else {
      jj := (blocks - 1) * 3 + reshta;
    }
    bytes := new bv8[blocks * 3];
    UnpackAll(bytes, requbuf, frame, blocks);
    assert bytes[..3 * blocks] == bytes[..];
    SizeBound(frame);
    n := jj - 1;
  }

  lemma SameRemainder(b: bv8)
    ensures Remainder(Unswap(b)) == Remainder(b)
  {
  }

  /** Both `decodBuf`s up to the point where they differ in what they return: whether the checksum was
      right, the unmasked buffer, and the length of the message. */
  method DecodBuf(randGen: MyRand, request: seq<bv8>, side: Side) returns (accepted: bool, buffer: array<bv8>, n: nat)
    requires randGen.Valid()
    modifies randGen`bufPos, randGen`value, randGen.state, randGen.buf
    ensures randGen.Valid() && fresh(buffer)
    ensures accepted ==> n < buffer.Length
    ensures Decoding(randGen.value, if accepted then Accepted(buffer[..n]) else Rejected)
         == Decode(side, old(randGen.value), request)
  {
    ghost var g := randGen.value;
    var framed;
    framed, buffer, n := UnpackRequest(request, side);
    if !framed {
      return false, buffer, n;
    }
    ghost var frame := Frame(side, request);
    ghost var was := buffer[..];
    var ks := Mask(randGen, buffer, n);
    MaskedAll(Take(g, n), was, buffer[..], n);
    assert buffer[..][..n] == buffer[..n];
    assert ReadWith(Take(g, n), frame) == if ks != buffer[n] then Rejected else Accepted(buffer[..n]);
    if ks != buffer[n] {
      return false, buffer, n;
    }
    randGen.Korr(ks);
    accepted := true;
  }
}
