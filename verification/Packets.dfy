/** The data packet of the runtime protocol: twenty little-endian 32-bit words, nineteen channels and a
    flag in slot 11. */
module Packets {
  import opened Ledger

  type Byte = b: int | 0 <= b < 256

  const SLOTS: int := 20
  const FLAG_SLOT: int := 11

  /** Two's complement reading of an unsigned 32-bit number. */
  function ToInt32(x: int): int {
    if x % 0x1_0000_0000 >= 0x8000_0000 then x % 0x1_0000_0000 - 0x1_0000_0000 else x % 0x1_0000_0000
  }

  function FromBytes(b0: int, b1: int, b2: int, b3: int): int {
    b0 + b1 * 0x100 + b2 * 0x1_0000 + b3 * 0x100_0000
  }

  /** `fourBytesToInt`. */
  function FourBytesToInt(data: seq<Byte>, offset: nat): int
    requires 4 * offset + 3 < |data|
  {
    ToInt32(FromBytes(data[4 * offset], data[4 * offset + 1], data[4 * offset + 2], data[4 * offset + 3]))
  }

  /** The slot the server reads a channel from. */
  function SlotOf(channel: int): int {
    if channel < 11 then channel else channel + 1
  }

  /** The seconds of every channel: the slot's word shifted right by eight with its sign. */
  function Values(data: seq<Byte>): Times
    requires |data| == 4 * SLOTS
  {
    seq(CHANNELS, i requires 0 <= i < CHANNELS => FourBytesToInt(data, SlotOf(i)) / 0x100)
  }

  predicate Flag(data: seq<Byte>)
    requires |data| == 4 * SLOTS
  {
    FourBytesToInt(data, FLAG_SLOT) != 0
  }
}
