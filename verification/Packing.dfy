/** Three bytes in four printable characters: `toBase64` of MyCrypter.h and MyCripter.java, and the
    codec of DBClass.java. */
module Packing {
  import opened Options

  /** A conversion to the source's 16-bit `short`. */
  function ToShort(n: int): int {
    (n + 0x8000) % 0x1_0000 - 0x8000
  }

  /** Blocks of three bytes, the last one possibly short. */
  function Blocks(n: nat): nat {
    (n + 2) / 3
  }

  // ---------------------------------------------------------------------------------------------
  // One block
  // ---------------------------------------------------------------------------------------------

  /** Character `k` of the block of three bytes. */
  function Char(k: int, a: bv8, b: bv8, c: bv8): bv8 {
    if k == 0 then 0x40 | ((a & 0xfc) >> 2)
    else if k == 1 then 0x40 | ((a & 0x03) << 4) | ((b & 0xf0) >> 4)
    else if k == 2 then 0x40 | ((b & 0x0f) << 2) | ((c & 0xc0) >> 6)
    else 0x40 | (c & 0x3f)
  }

  /** Byte `k` of the block of four characters. */
  function ByteFrom(k: int, p: bv8, q: bv8, r: bv8, s: bv8): bv8 {
    if k == 0 then ((p & 0x3f) << 2) | ((q & 0x30) >> 4)
    else if k == 1 then ((q & 0x0f) << 4) | ((r & 0x3c) >> 2)
    else ((r & 0x03) << 6) | (s & 0x3f)
  }

  /** A backslash travels as a comma. */
  function Swap(v: bv8): bv8 { if v == 0x5c then 0x2c else v }

  function Unswap(v: bv8): bv8 { if v == 0x2c then 0x5c else v }

  lemma SwapBack(k: int, a: bv8, b: bv8, c: bv8)
    ensures Unswap(Swap(Char(k, a, b, c))) == Char(k, a, b, c)
    ensures 0x20 <= Swap(Char(k, a, b, c)) <= 0x7f
  {
  }

  lemma BlockBack(a: bv8, b: bv8, c: bv8)
    ensures ByteFrom(0, Char(0, a, b, c), Char(1, a, b, c), Char(2, a, b, c), Char(3, a, b, c)) == a
    ensures ByteFrom(1, Char(0, a, b, c), Char(1, a, b, c), Char(2, a, b, c), Char(3, a, b, c)) == b
    ensures ByteFrom(2, Char(0, a, b, c), Char(1, a, b, c), Char(2, a, b, c), Char(3, a, b, c)) == c
  {
  }

  /** The last character tells the remainder of the length by three. */
  function Marker(n: nat): bv8 {
    if n % 3 == 0 then 0x20 else if n % 3 == 1 then 0x21 else 0x22
  }

  function Remainder(marker: bv8): int {
    if marker & 0x03 == 0 then 0 else if marker & 0x03 == 1 then 1 else if marker & 0x03 == 2 then 2 else 3
  }

  lemma MarkerBack(n: nat)
    ensures Remainder(Marker(n)) == n % 3 && 0x20 <= Marker(n) <= 0x7f
  {
  }

  // ---------------------------------------------------------------------------------------------
  // Whole messages
  // ---------------------------------------------------------------------------------------------

  function At(data: seq<bv8>, i: int): bv8 {
    if 0 <= i < |data| then data[i] else 0
  }

  /** Block `b` of a message as four characters, before the swap. */
  function BlockOf(data: seq<bv8>, b: nat): (four: seq<bv8>)
    ensures |four| == 4
  {
    Four(At(data, 3 * b), At(data, 3 * b + 1), At(data, 3 * b + 2))
  }

  /** The characters of the first `blocks` blocks, before the swap. */
  function Chars(data: seq<bv8>, blocks: nat): (c: seq<bv8>)
    ensures |c| == 4 * blocks
  {
    if blocks == 0 then [] else Chars(data, blocks - 1) + BlockOf(data, blocks - 1)
  }

  function Swapped(chars: seq<bv8>): (c: seq<bv8>)
    ensures |c| == |chars|
    ensures forall i: nat :: i < |c| ==> c[i] == Swap(chars[i])
  {
    seq(|chars|, i requires 0 <= i < |chars| => Swap(chars[i]))
  }

  /** The marker behind the characters. */
  function Closed(chars: seq<bv8>, n: nat): (w: seq<bv8>)
    ensures |w| == |chars| + 1
  {
    chars + [Marker(n)]
  }

  /** A message on the wire. */
  function Wire(data: seq<bv8>): (w: seq<bv8>)
    ensures |w| == 4 * Blocks(|data|) + 1
  {
    Closed(Swapped(Chars(data, Blocks(|data|))), |data|)
  }

  /** Block `b` of a wire as three bytes. */
  function TripleOf(wire: seq<bv8>, b: nat): (three: seq<bv8>)
    ensures |three| == 3
  {
    var p, q := Unswap(At(wire, 4 * b)), Unswap(At(wire, 4 * b + 1));
    var r, s := Unswap(At(wire, 4 * b + 2)), Unswap(At(wire, 4 * b + 3));
    [ByteFrom(0, p, q, r, s), ByteFrom(1, p, q, r, s), ByteFrom(2, p, q, r, s)]
  }

  /** The bytes of the first `blocks` blocks of a wire. */
  function Unpacked(wire: seq<bv8>, blocks: nat): (d: seq<bv8>)
    ensures |d| == 3 * blocks
  {
    if blocks == 0 then [] else Unpacked(wire, blocks - 1) + TripleOf(wire, blocks - 1)
  }

  /** How many bytes a wire of so many blocks holds by its marker. */
  function Held(blocks: int, marker: bv8): int {
    if Remainder(marker) == 0 then 3 * blocks else 3 * (blocks - 1) + Remainder(marker)
  }

  lemma {:induction false} CharsAt(data: seq<bv8>, blocks: nat, b: nat, k: nat)
    requires b < blocks && k < 4
    ensures Chars(data, blocks)[4 * b + k] == BlockOf(data, b)[k]
  {
    if b < blocks - 1 {
      CharsAt(data, blocks - 1, b, k);
    }
  }

  lemma WireChar(data: seq<bv8>, b: nat, k: nat)
    requires b < Blocks(|data|) && k < 4
    ensures At(Wire(data), 4 * b + k) == Swap(BlockOf(data, b)[k])
  {
    CharsAt(data, Blocks(|data|), b, k);
  }

  /** One block of a message's own wire gives back its three bytes. */
  lemma TripleBack(data: seq<bv8>, b: nat)
    requires b < Blocks(|data|)
    ensures TripleOf(Wire(data), b) == [At(data, 3 * b), At(data, 3 * b + 1), At(data, 3 * b + 2)]
  {
    var x, y, z := At(data, 3 * b), At(data, 3 * b + 1), At(data, 3 * b + 2);
    WireChar(data, b, 0);
    WireChar(data, b, 1);
    WireChar(data, b, 2);
    WireChar(data, b, 3);
    SwapBack(0, x, y, z);
    SwapBack(1, x, y, z);
    SwapBack(2, x, y, z);
    SwapBack(3, x, y, z);
    BlockBack(x, y, z);
  }

  lemma {:induction false} UnpackWireAt(data: seq<bv8>, blocks: nat, i: nat)
    requires blocks <= Blocks(|data|) && i < 3 * blocks
    ensures Unpacked(Wire(data), blocks)[i] == At(data, i)
  {
    TripleBack(data, blocks - 1);
    if i < 3 * (blocks - 1) {
      UnpackWireAt(data, blocks - 1, i);
    }
  }

  /** Unpacking a message's own wire gives the message and zeros up to a whole block. */
  lemma UnpackWire(data: seq<bv8>)
    ensures |data| <= 3 * Blocks(|data|)
    ensures Unpacked(Wire(data), Blocks(|data|))[..|data|] == data
    ensures Held(Blocks(|data|), Wire(data)[|Wire(data)| - 1]) == |data|
  {
    forall i: nat | i < |data|
      ensures Unpacked(Wire(data), Blocks(|data|))[i] == data[i]
    {
      UnpackWireAt(data, Blocks(|data|), i);
    }
    MarkerBack(|data|);
  }

  /** A message with its checksum behind it is found again in its wire. */
  lemma UnpackMessage(m: seq<bv8>, cs: bv8)
    ensures Held(Blocks(|m| + 1), Wire(m + [cs])[|Wire(m + [cs])| - 1]) == |m| + 1 <= 3 * Blocks(|m| + 1)
    ensures Unpacked(Wire(m + [cs]), Blocks(|m| + 1))[..|m|] == m
    ensures Unpacked(Wire(m + [cs]), Blocks(|m| + 1))[|m|] == cs
  {
    var data := m + [cs];
    UnpackWire(data);
    assert Unpacked(Wire(data), Blocks(|data|))[..|data|][..|m|] == m;
  }

  /** No character of a wire ends the printable text the HTTP reader keeps. */
  lemma WirePrintable(data: seq<bv8>, i: nat)
    requires i < |Wire(data)|
    ensures 0x20 <= Wire(data)[i] <= 0x7f
  {
    MarkerBack(|data|);
    if i < 4 * Blocks(|data|) {
      WireChar(data, i / 4, i % 4);
      SwapBack(i % 4, At(data, 3 * (i / 4)), At(data, 3 * (i / 4) + 1), At(data, 3 * (i / 4) + 2));
    }
  }

  // ---------------------------------------------------------------------------------------------
  // The codec of DBClass.java
  // ---------------------------------------------------------------------------------------------

  /** What the encoder returns; None where it throws. Block count and wire length are shorts. */
  function Encoded(data: seq<bv8>): Option<seq<bv8>> {
    var blocks := ToShort(Blocks(|data|));
    var length := ToShort(4 * blocks + 1);
    if length < 0 || (0 < blocks && length < 4 * blocks) then None
    else if 0 < blocks then Some(Closed(Swapped(Chars(data, blocks)), |data|))
    else Some(Closed(Zeros(length - 1), |data|))
  }

  function Zeros(n: int): seq<bv8> { if n <= 0 then [] else seq(n, _ => 0) }

  function Decoded(wire: seq<bv8>): Option<seq<bv8>> {
    if wire == [] then None
    else
      var blocks := ToShort((|wire| - 1) / 4);
      var length := Held(blocks, wire[|wire| - 1]);
      if length < 0 then None else Some(Unpacked(wire, blocks)[..length])
  }

  lemma HeldBounds(blocks: int, marker: bv8)
    ensures 3 * blocks - 2 <= Held(blocks, marker) <= 3 * blocks
  {
  }

  lemma EncodedIsWire(data: seq<bv8>)
    requires |data| <= 24573
    ensures Encoded(data) == Some(Wire(data))
  {
    if data == [] {
      SwappedZeros(0);
      assert Chars(data, 0) == Zeros(0);
    } else {
      Short(Blocks(|data|));
      Short(4 * Blocks(|data|) + 1);
    }
  }

  lemma Short(n: nat)
    requires n <= 0x7fff
    ensures ToShort(n) == n
  {
  }

  lemma SwappedZeros(n: int)
    ensures Swapped(Zeros(n)) == Zeros(n)
  {
  }

  lemma DecodedWire(data: seq<bv8>)
    requires |data| <= 24573
    ensures Decoded(Wire(data)) == Some(data)
  {
    UnpackWire(data);
    assert (|Wire(data)| - 1) / 4 == Blocks(|data|);
    Short(Blocks(|data|));
  }

  lemma DecodedShort(wire: seq<bv8>)
    requires |wire| <= 0x7fff && Decoded(wire).Some?
    ensures |Decoded(wire).value| <= 24573
  {
    HeldBounds(ToShort((|wire| - 1) / 4), wire[|wire| - 1]);
  }

  /** Decoding undoes encoding if and only if the message fits the 16-bit length of its wire. */
  lemma CodecRoundTrip(data: seq<bv8>)
    ensures Encoded(data).Some? && Decoded(Encoded(data).value) == Some(data) <==> |data| <= 24573
  {
    if |data| <= 24573 {
      EncodedIsWire(data);
      DecodedWire(data);
    } else if Encoded(data).Some? {
      EncodedFits(data);
      if Decoded(Encoded(data).value).Some? {
        DecodedShort(Encoded(data).value);
      }
    }
  }

  lemma EncodedFits(data: seq<bv8>)
    requires Encoded(data).Some?
    ensures 1 <= |Encoded(data).value| <= 0x7fff
  {
  }

  method EncodeCustomBase64(pureBytes: seq<bv8>) returns (r: Option<seq<bv8>>)
    ensures r == Encoded(pureBytes)
  {
    var reshta := |pureBytes| % 3;
    var blocks := ToShort(|pureBytes| / 3 + if reshta == 0 then 0 else 1);
    assert blocks == ToShort(Blocks(|pureBytes|));
    var length2 := ToShort(blocks * 4 + 1);
    if length2 < 0 || (0 < blocks && length2 < 4 * blocks) {
      return None;
    }
    var vidp2;
    if 0 < blocks {
      vidp2 := PackMessage(pureBytes, blocks);
    } else {
      vidp2 := new bv8[length2](_ => 0);
      SwappedZeros(length2 - 1);
      assert vidp2[..length2 - 1] == Zeros(length2 - 1);
    }
    ghost var chars := vidp2[..vidp2.Length - 1];
    Finish(vidp2, |pureBytes|);
    assert vidp2[..] == Closed(Swapped(chars), |pureBytes|);
    r := Some(vidp2[..]);
  }

  /** The loop over the blocks, in a buffer with a place for the marker. */
  method PackMessage(pureBytes: seq<bv8>, blocks: nat) returns (vidp2: array<bv8>)
    requires blocks <= Blocks(|pureBytes|)
    ensures fresh(vidp2) && vidp2.Length == 4 * blocks + 1 && vidp2[..4 * blocks] == Chars(pureBytes, blocks)
  {
    var bodyTmp := new bv8[|pureBytes| + 3](i requires 0 <= i < |pureBytes| + 3 => At(pureBytes, i));
    vidp2 := new bv8[4 * blocks + 1](_ => 0);
    PackAll(vidp2, bodyTmp, pureBytes, blocks);
  }

  /** Swaps all characters and writes the marker over the last. */
  method Finish(arr: array<bv8>, n: nat)
    requires 1 <= arr.Length
    modifies arr
    ensures arr[..] == Closed(Swapped(old(arr[..arr.Length - 1])), n)
  {
    Replace(arr, arr.Length, 0x5c, 0x2c);
    arr[arr.Length - 1] := Marker(n);
  }

  method Replace(arr: array<bv8>, n: nat, from: bv8, to: bv8)
    requires n <= arr.Length
    modifies arr
    ensures forall i: nat :: i < n ==> arr[i] == if old(arr[i]) == from then to else old(arr[i])
    ensures forall i: nat :: n <= i < arr.Length ==> arr[i] == old(arr[i])
  {
    for k := 0 to n
      invariant forall i: nat :: i < k ==> arr[i] == if old(arr[i]) == from then to else old(arr[i])
      invariant forall i: nat :: k <= i < arr.Length ==> arr[i] == old(arr[i])
    {
      if arr[k] == from {
        arr[k] := to;
      }
    }
  }

  method PackAll(arr: array<bv8>, body: array<bv8>, ghost data: seq<bv8>, blocks: nat)
    requires 4 * blocks <= arr.Length && 3 * blocks <= body.Length && arr != body
    requires forall i: int :: 0 <= i < body.Length ==> body[i] == At(data, i)
    modifies arr
    ensures arr[..4 * blocks] == Chars(data, blocks)
  {
    for ii := 0 to blocks
      invariant arr[..4 * ii] == Chars(data, ii)
    {
      WriteChars(arr, data, ii, body[ii * 3 + 0], body[ii * 3 + 1], body[ii * 3 + 2]);
    }
  }

  method UnpackAll(arr: array<bv8>, chars: array<bv8>, ghost wire: seq<bv8>, blocks: nat)
    requires 3 * blocks <= arr.Length && 4 * blocks <= chars.Length && arr != chars
    requires forall i: int :: 0 <= i < 4 * blocks ==> chars[i] == Unswap(At(wire, i))
    modifies arr
    ensures arr[..3 * blocks] == Unpacked(wire, blocks)
  {
    for ii := 0 to blocks
      invariant arr[..3 * ii] == Unpacked(wire, ii)
    {
      WriteBytes(arr, wire, ii, chars[ii * 4 + 0], chars[ii * 4 + 1], chars[ii * 4 + 2], chars[ii * 4 + 3]);
    }
  }

  /** Writes the four characters of a block behind those before it. */
  method WriteChars(arr: array<bv8>, ghost data: seq<bv8>, ii: nat, a: bv8, b: bv8, c: bv8)
    requires 4 * ii + 3 < arr.Length && arr[..4 * ii] == Chars(data, ii)
    requires a == At(data, 3 * ii) && b == At(data, 3 * ii + 1) && c == At(data, 3 * ii + 2)
    modifies arr
    ensures arr[..4 * ii + 4] == Chars(data, ii + 1)
    ensures forall i: nat :: 4 * ii + 4 <= i < arr.Length ==> arr[i] == old(arr[i])
  {
    arr[ii * 4 + 0] := Char(0, a, b, c);
    arr[ii * 4 + 1] := Char(1, a, b, c);
    arr[ii * 4 + 2] := Char(2, a, b, c);
    arr[ii * 4 + 3] := Char(3, a, b, c);
    assert arr[..4 * ii + 4] == Chars(data, ii) + BlockOf(data, ii);
  }

  /** Writes the three bytes of a block of four characters, already swapped back, behind those before it. */
  method WriteBytes(arr: array<bv8>, ghost wire: seq<bv8>, ii: nat, p: bv8, q: bv8, r: bv8, s: bv8)
    requires 3 * ii + 2 < arr.Length && arr[..3 * ii] == Unpacked(wire, ii)
    requires p == Unswap(At(wire, 4 * ii)) && q == Unswap(At(wire, 4 * ii + 1))
    requires r == Unswap(At(wire, 4 * ii + 2)) && s == Unswap(At(wire, 4 * ii + 3))
    modifies arr
    ensures arr[..3 * ii + 3] == Unpacked(wire, ii + 1)
  {
    arr[ii * 3 + 0] := ByteFrom(0, p, q, r, s);
    arr[ii * 3 + 1] := ByteFrom(1, p, q, r, s);
    arr[ii * 3 + 2] := ByteFrom(2, p, q, r, s);
    assert arr[..3 * ii + 3] == Unpacked(wire, ii) + TripleOf(wire, ii);
  }

  method DecodeCustomBase64(wire: seq<bv8>) returns (r: Option<seq<bv8>>)
    ensures r == Decoded(wire)
  {
    var contentLength := |wire|;
    if contentLength == 0 {
      return None;
    }
    var reshta := Remainder(wire[contentLength - 1]);
    var blocks := ToShort((contentLength - 1) / 4);
    if reshta == 0 {
      contentLength := blocks * 3;
    } else {
      contentLength := (blocks - 1) * 3 + reshta;
    }
    HeldBounds(blocks, wire[|wire| - 1]);
    if contentLength < 0 {
      return None;
    }
    var tmp := UnpackBody(wire, blocks, contentLength + 3);
    r := Some(tmp[..contentLength]);
    assert tmp[..contentLength] == tmp[..3 * blocks][..contentLength];
  }

  method UnpackBody(wire: seq<bv8>, blocks: nat, length: nat) returns (tmp: array<bv8>)
    requires 4 * blocks < |wire| && 3 * blocks <= length
    ensures tmp.Length == length && tmp[..3 * blocks] == Unpacked(wire, blocks)
  {
    var body := new bv8[|wire|](i requires 0 <= i < |wire| => wire[i]);
    Replace(body, |wire| - 1, 0x2c, 0x5c);
    tmp := new bv8[length];
    UnpackAll(tmp, body, wire, blocks);
  }

  // ---------------------------------------------------------------------------------------------
  // The branching packer of the cipher
  // ---------------------------------------------------------------------------------------------

  /** The server counts blocks in a short, the client in an int. */
  datatype Side = Server | Client

  function Natural(n: int): nat { if n < 0 then 0 else n }

  function Counted(side: Side, n: nat): int {
    if side == Server then ToShort(n) else n
  }

  /** What the packer returns for a message with its checksum: its wire, if the block count fits. */
  function Packed(side: Side, data: seq<bv8>): seq<bv8> {
    var blocks := Counted(side, Blocks(|data|));
    Closed(Swapped(Chars(data, Natural(blocks))), |data|)
  }

  lemma PackedIsWire(side: Side, data: seq<bv8>)
    requires side == Client || |data| <= 98301
    ensures Packed(side, data) == Wire(data)
  {
    assert |data| <= 98301 ==> ToShort(Blocks(|data|)) == Blocks(|data|);
  }

  /** The branching packer and the encoder agree on every message that fits the encoder. */
  lemma PackerIsEncoder(data: seq<bv8>, cs: bv8, side: Side)
    requires |data| + 1 <= 24573
    ensures Encoded(data + [cs]) == Some(Packed(side, data + [cs]))
  {
    EncodedIsWire(data + [cs]);
    PackedIsWire(side, data + [cs]);
  }

  method ToBase64(data: seq<bv8>, cs: bv8, side: Side) returns (r: seq<bv8>)
    ensures r == if data == [] then [] else Packed(side, data + [cs])
  {
    var len := |data|;
    if len <= 0 {
      return [];
    }
    ghost var message := data + [cs];
    assert |message| == len + 1;
    var blocks := CountBlocks(len + 1, side);
    var result := PackBlocks(data, cs, blocks);
    var swapped := SwapAll(result);
    assert Packed(side, message) == Closed(Swapped(Chars(message, Natural(blocks))), len + 1);
    r := Closed(swapped, len + 1);
  }

  method CountBlocks(n: nat, side: Side) returns (blocks: int)
    ensures blocks == Counted(side, Blocks(n)) <= Blocks(n)
  {
    var reshta := n % 3;
    blocks := Counted(side, n / 3 + if reshta == 0 then 0 else 1);
  }

  method PackBlocks(data: seq<bv8>, cs: bv8, blocks: int) returns (result: seq<bv8>)
    requires blocks <= Blocks(|data| + 1)
    ensures result == Chars(data + [cs], Natural(blocks))
  {
    result := [];
    var ii := 0;
    while ii < blocks
      invariant 0 <= ii <= Natural(blocks)
      invariant result == Chars(data + [cs], ii)
    {
      var four := PackBlock(data, cs, ii);
      result := result + four;
      ii := ii + 1;
    }
  }

  method SwapAll(chars: seq<bv8>) returns (result: seq<bv8>)
    ensures result == Swapped(chars)
  {
    result := chars;
    for i := 0 to |result|
      invariant |result| == |chars|
      invariant forall j: nat :: j < i ==> result[j] == Swap(chars[j])
      invariant forall j: nat :: i <= j < |result| ==> result[j] == chars[j]
    {
      if result[i] == 0x5c {
        result := result[i := 0x2c];
      }
    }
  }

  /** The branches of one block: the checksum takes the place after the last byte, which is in the last
      block. */
  method PackBlock(data: seq<bv8>, cs: bv8, ii: nat) returns (four: seq<bv8>)
    requires 3 * ii <= |data|
    ensures four == BlockOf(data + [cs], ii)
  {
    var len := |data|;
    if ii * 3 == len {
      four := PackOne(cs);
    } else if ii * 3 + 1 == len {
      four := PackTwo(data[ii * 3], cs);
    } else if ii * 3 + 2 == len {
      four := PackThree(data[ii * 3], data[ii * 3 + 1], cs);
    } else {
      four := PackThree(data[ii * 3], data[ii * 3 + 1], data[ii * 3 + 2]);
    }
  }

  function Four(x: bv8, y: bv8, z: bv8): (four: seq<bv8>)
    ensures |four| == 4
  {
    [Char(0, x, y, z), Char(1, x, y, z), Char(2, x, y, z), Char(3, x, y, z)]
  }

  method PackOne(cs: bv8) returns (four: seq<bv8>)
    ensures four == Four(cs, 0, 0)
  {
    OneByte(cs);
    four := [0x40 | ((cs & 0xfc) >> 2), 0x40 | ((cs & 0x03) << 4), 0x40, 0x40];
  }

  method PackTwo(a: bv8, cs: bv8) returns (four: seq<bv8>)
    ensures four == Four(a, cs, 0)
  {
    TwoBytes(a, cs);
    four := [0x40 | ((a & 0xfc) >> 2), 0x40 | ((a & 0x03) << 4) | ((cs & 0xf0) >> 4),
             0x40 | ((cs & 0x0f) << 2), 0x40];
  }

  method PackThree(a: bv8, b: bv8, c: bv8) returns (four: seq<bv8>)
    ensures four == Four(a, b, c)
  {
    four := [0x40 | ((a & 0xfc) >> 2), 0x40 | ((a & 0x03) << 4) | ((b & 0xf0) >> 4),
             0x40 | ((b & 0x0f) << 2) | ((c & 0xc0) >> 6), 0x40 | (c & 0x3f)];
  }

  /** The short branches leave out what zeros would add. */
  lemma OneByte(x: bv8)
    ensures 0x40 | ((x & 0x03) << 4) == Char(1, x, 0, 0) && Char(2, x, 0, 0) == 0x40 && Char(3, x, 0, 0) == 0x40
  {
  }

  lemma TwoBytes(x: bv8, y: bv8)
    ensures 0x40 | ((y & 0x0f) << 2) == Char(2, x, y, 0) && Char(3, x, y, 0) == 0x40
  {
  }
}
