/** The forwarder that imitates the device (MachineTimeForwarder.java): its packets, and its loop. */
module Forwarder {
  import opened Options
  import opened Ledger
  import opened Packets

  /** What looking up each device gives: nothing, or its runtime in seconds. */
  type Readings = r: seq<Option<int>> | |r| == CHANNELS witness seq(CHANNELS, _ => None)

  /** One serial number per input; 0 is a free input. Input 0 is the clock. */
  type Serials = s: seq<int> | |s| == CHANNELS witness seq(CHANNELS, _ => 0)

  // ---------------------------------------------------------------------------------------------
  // What the loops compute
  // ---------------------------------------------------------------------------------------------

  function PollOne(serials: Serials, clock: int, readings: Readings, i: Channel): int {
    if i == 0 then clock
    else if serials[i] == 0 then 0
    else match readings[i]
         case None => -1
         case Some(runtime) => runtime
  }

  function PollAll(serials: Serials, clock: int, readings: Readings): Times {
    seq(CHANNELS, i requires 0 <= i < CHANNELS => PollOne(serials, clock, readings, i))
  }

  function AdoptOne(serials: Serials, start: Times, now: Times, i: Channel): int {
    if i != 0 && serials[i] != 0 && start[i] < 0 && now[i] >= 0 then now[i] else start[i]
  }

  function AdoptAll(serials: Serials, start: Times, now: Times): Times {
    seq(CHANNELS, i requires 0 <= i < CHANNELS => AdoptOne(serials, start, now, i))
  }

  /** The seconds reported for an input: a missing device repeats its last report. */
  function Elapsed(now: int, start: int, last: int): int {
    if now < 0 then last
    else if start < 0 then 0
    else if now - start < 0 then 0
    else now - start
  }

  function ElapsedAll(now: Times, start: Times, last: Times): Times {
    seq(CHANNELS, i requires 0 <= i < CHANNELS => Elapsed(now[i], start[i], last[i]))
  }

  /** A report is remembered only when it was measured. */
  function LastOne(now: int, start: int, last: int): int {
    if now < 0 || start < 0 then last else Elapsed(now, start, last)
  }

  function LastAll(now: Times, start: Times, last: Times): Times {
    seq(CHANNELS, i requires 0 <= i < CHANNELS => LastOne(now[i], start[i], last[i]))
  }

  /** The slot the forwarder writes an input to. */
  function SlotFor(i: int): int {
    i + i / 11
  }

  /** The twenty words of a packet: seconds above a byte with the slot number, and the flag. */
  function Words(elapsed: Times, flag: bool): seq<int> {
    seq(SLOTS, j requires 0 <= j < SLOTS =>
      if j == FLAG_SLOT then if flag then 0xff else 0
      else elapsed[if j < FLAG_SLOT then j else j - 1] * 0x100 + j)
  }

  /** `MyCripter.encrypt(long[])`: four bytes of every word, least significant first. */
  function ToBytes(words: seq<int>): (data: seq<Byte>)
    ensures |data| == 4 * |words|
  {
    seq(4 * |words|, n requires 0 <= n < 4 * |words| => ByteOf(words[n / 4], n % 4))
  }

  function ByteOf(word: int, k: int): Byte {
    if k == 0 then word % 0x100
    else if k == 1 then word / 0x100 % 0x100
    else if k == 2 then word / 0x1_0000 % 0x100
    else word / 0x100_0000 % 0x100
  }

  // ---------------------------------------------------------------------------------------------
  // Packing and unpacking
  // ---------------------------------------------------------------------------------------------

  /** Forwarder and server use the same slots, never the flag slot. */
  lemma SlotsAgree(i: Channel)
    ensures SlotFor(i) == SlotOf(i) && SlotFor(i) != FLAG_SLOT && 0 <= SlotFor(i) < SLOTS
  {
  }

  lemma Quotients(word: int)
    ensures word / 0x1_0000 == word / 0x100 / 0x100
    ensures word / 0x100_0000 == word / 0x1_0000 / 0x100
    ensures word / 0x1_0000_0000 == word / 0x100_0000 / 0x100
  {
  }

  lemma WordBytes(word: int)
    ensures FromBytes(ByteOf(word, 0), ByteOf(word, 1), ByteOf(word, 2), ByteOf(word, 3)) == word % 0x1_0000_0000
  {
    Quotients(word);
    assert word == ByteOf(word, 0) + 0x100 * (word / 0x100);
    assert word / 0x100 == ByteOf(word, 1) + 0x100 * (word / 0x1_0000);
    assert word / 0x1_0000 == ByteOf(word, 2) + 0x100 * (word / 0x100_0000);
    assert word / 0x100_0000 == ByteOf(word, 3) + 0x100 * (word / 0x1_0000_0000);
  }

  lemma ToInt32Mod(x: int)
    ensures ToInt32(x % 0x1_0000_0000) == ToInt32(x)
  {
  }

  lemma ByteAt(words: seq<int>, j: nat, k: nat)
    requires j < |words| && k < 4
    ensures ToBytes(words)[4 * j + k] == ByteOf(words[j], k)
  {
    assert (4 * j + k) / 4 == j && (4 * j + k) % 4 == k;
  }

  lemma WordsRead(words: seq<int>, j: nat)
    requires j < |words|
    ensures FourBytesToInt(ToBytes(words), j) == ToInt32(words[j])
  {
    ByteAt(words, j, 0);
    ByteAt(words, j, 1);
    ByteAt(words, j, 2);
    ByteAt(words, j, 3);
    WordBytes(words[j]);
    ToInt32Mod(words[j]);
  }

  /** A word keeps its seconds if they fit 23 bits, and never reads as more than was written. */
  lemma ShiftedWord(seconds: int, j: int)
    requires seconds >= 0 && 0 <= j < 0x100
    ensures ToInt32(seconds * 0x100 + j) / 0x100 == seconds <==> seconds < 0x80_0000
    ensures ToInt32(seconds * 0x100 + j) / 0x100 <= seconds
  {
    var low := seconds % 0x100_0000;
    assert (seconds * 0x100 + j) % 0x1_0000_0000 == low * 0x100 + j;
  }

  lemma WordAt(elapsed: Times, flag: bool, ch: Channel)
    ensures Words(elapsed, flag)[SlotOf(ch)] == elapsed[ch] * 0x100 + SlotOf(ch)
    ensures Words(elapsed, flag)[FLAG_SLOT] == if flag then 0xff else 0
  {
  }

  /** A packet is known from its channel slots and its flag. */
  lemma WordsFrom(words: seq<int>, elapsed: Times, flag: bool)
    requires |words| == SLOTS
    requires forall ch: Channel :: words[SlotFor(ch)] == elapsed[ch] * 0x100 + SlotFor(ch)
    requires words[FLAG_SLOT] == if flag then 0xff else 0
    ensures words == Words(elapsed, flag)
  {
    forall j: int | 0 <= j < SLOTS
      ensures words[j] == Words(elapsed, flag)[j]
    {
      if j != FLAG_SLOT {
        var ch: Channel := if j < FLAG_SLOT then j else j - 1;
        assert SlotFor(ch) == j;
        assert words[SlotFor(ch)] == elapsed[ch] * 0x100 + SlotFor(ch);
      }
    }
  }

  lemma ValueRead(words: seq<int>, ch: Channel)
    requires |words| == SLOTS
    ensures Values(ToBytes(words))[ch] == ToInt32(words[SlotOf(ch)]) / 0x100
    ensures Flag(ToBytes(words)) == (ToInt32(words[FLAG_SLOT]) != 0)
  {
    WordsRead(words, SlotOf(ch));
    WordsRead(words, FLAG_SLOT);
  }

  /** The bytes of a packet, before encryption. */
  function PacketBytes(elapsed: Times, flag: bool): (data: seq<Byte>)
    ensures |data| == 4 * SLOTS
  {
    ToBytes(Words(elapsed, flag))
  }

  lemma PacketValue(elapsed: Times, flag: bool, ch: Channel)
    ensures Values(PacketBytes(elapsed, flag))[ch] == ToInt32(elapsed[ch] * 0x100 + SlotOf(ch)) / 0x100
  {
    WordAt(elapsed, flag, ch);
    ValueRead(Words(elapsed, flag), ch);
  }

  lemma PacketFlag(elapsed: Times, flag: bool)
    ensures Flag(PacketBytes(elapsed, flag)) == flag
  {
    WordAt(elapsed, flag, 0);
    ValueRead(Words(elapsed, flag), 0);
    FlagWord(flag);
  }

  lemma FlagWord(flag: bool)
    ensures ToInt32(if flag then 0xff else 0) != 0 <==> flag
  {
  }

  /** The server reads back exactly the seconds sent on a channel if and only if they fit 23 bits, never
      more than were sent, and the flag always as it was sent. */
  lemma PacketRoundTrip(elapsed: Times, flag: bool, ch: Channel)
    requires elapsed[ch] >= 0
    ensures Values(PacketBytes(elapsed, flag))[ch] == elapsed[ch] <==> elapsed[ch] < 0x80_0000
    ensures Values(PacketBytes(elapsed, flag))[ch] <= elapsed[ch]
    ensures Flag(PacketBytes(elapsed, flag)) == flag
  {
    PacketFlag(elapsed, flag);
    PacketValue(elapsed, flag, ch);
    ShiftedWord(elapsed[ch], SlotOf(ch));
  }

  // ---------------------------------------------------------------------------------------------
  // The forwarder itself
  // ---------------------------------------------------------------------------------------------

  /** The fields of the forwarder as values. */
  datatype Fwd = Fwd(start: Times, now: Times, last: Times, flag: bool, day: nat)

  /** One round: at a new day the baselines are read again, before the poll. */
  function Refreshed(f: Fwd, today: nat, refresh: Times): Fwd {
    if today == f.day then f else f.(start := refresh, flag := true, day := today)
  }

  function Polled(f: Fwd, serials: Serials, poll: Times): Fwd {
    f.(now := poll, start := AdoptAll(serials, f.start, poll))
  }

  /** What the packet of this round reports. */
  function Reported(f: Fwd): Times {
    ElapsedAll(f.now, f.start, f.last)
  }

  function Prepared(f: Fwd): Fwd {
    f.(last := LastAll(f.now, f.start, f.last))
  }

  /** After the exchange, to which a good reply came back or not. */
  function Sent(f: Fwd, wasConnected: bool, answered: bool): Fwd {
    f.(flag := f.flag && !(wasConnected && answered))
  }

  class MachineTimeForwarder {
    const deviceSerial: Serials
    const sessionStart: array<int>
    const nowMoment: array<int>
    const lastElapsed: array<int>
    var baselineRefreshed: bool
    var lastDay: nat

    ghost predicate Valid()
      reads this
    {
      && sessionStart.Length == CHANNELS && nowMoment.Length == CHANNELS && lastElapsed.Length == CHANNELS
      && sessionStart != nowMoment && sessionStart != lastElapsed && nowMoment != lastElapsed
    }

    ghost function State(): Fwd
      requires Valid()
      reads this, sessionStart, nowMoment, lastElapsed
    {
      Fwd(sessionStart[..], nowMoment[..], lastElapsed[..], baselineRefreshed, lastDay)
    }

    /** The start of `run`: the first baselines are read once the devices have had time to appear. */
    constructor (serials: Serials, today: nat, clock: int, readings: Readings)
      ensures Valid() && deviceSerial == serials
      ensures fresh(sessionStart) && fresh(nowMoment) && fresh(lastElapsed)
      ensures State() == Fwd(PollAll(serials, clock, readings), Zero(), Zero(), true, today)
    {
      deviceSerial := serials;
      sessionStart := new int[CHANNELS](_ => 0);
      nowMoment := new int[CHANNELS](_ => 0);
      lastElapsed := new int[CHANNELS](_ => 0);
      baselineRefreshed := false;
      lastDay := today;
      new;
      RefreshSessionStart(clock, readings);
      assert nowMoment[..] == Zero() && lastElapsed[..] == Zero();
    }

    method Poll(arr: array<int>, clock: int, readings: Readings)
      requires arr.Length == CHANNELS
      modifies arr
      ensures arr[..] == PollAll(deviceSerial, clock, readings)
    {
      arr[0] := clock;
      for i := 1 to CHANNELS
        invariant forall k: int :: 0 <= k < i ==> arr[k] == PollOne(deviceSerial, clock, readings, k)
      {
        if deviceSerial[i] == 0 {
          arr[i] := 0;
          continue;
        }
        match readings[i] {
          case None => arr[i] := -1;
          case Some(runtime) => arr[i] := runtime;
        }
      }
      assert arr[..] == PollAll(deviceSerial, clock, readings);
    }

    method RefreshSessionStart(clock: int, readings: Readings)
      requires Valid()
      modifies this`baselineRefreshed, sessionStart
      ensures Valid()
      ensures State() == old(State()).(start := PollAll(deviceSerial, clock, readings), flag := true)
    {
      Poll(sessionStart, clock, readings);
      baselineRefreshed := true;
    }

    method AdoptMissingBaselines()
      requires Valid()
      modifies sessionStart
      ensures Valid()
      ensures State() == old(State()).(start := AdoptAll(deviceSerial, old(sessionStart[..]), nowMoment[..]))
    {
      for i := 1 to CHANNELS
        invariant Valid() && nowMoment[..] == old(nowMoment[..]) && lastElapsed[..] == old(lastElapsed[..])
        invariant forall k: int :: 0 <= k < i ==>
          sessionStart[k] == AdoptOne(deviceSerial, old(sessionStart[..]), nowMoment[..], k)
        invariant forall k: int :: i <= k < CHANNELS ==> sessionStart[k] == old(sessionStart[k])
      {
        if deviceSerial[i] != 0 && sessionStart[i] < 0 && nowMoment[i] >= 0 {
          sessionStart[i] := nowMoment[i];
        }
      }
      assert sessionStart[..] == AdoptAll(deviceSerial, old(sessionStart[..]), nowMoment[..]);
    }

    method PrepareDiff() returns (diff: array<int>)
      requires Valid()
      modifies lastElapsed
      ensures Valid() && fresh(diff) && diff.Length == SLOTS
      ensures diff[..] == Words(Reported(old(State())), baselineRefreshed)
      ensures State() == Prepared(old(State()))
    {
      ghost var now := nowMoment[..];
      ghost var start := sessionStart[..];
      ghost var last := lastElapsed[..];
      diff := new int[SLOTS](_ => 0);
      for i := 0 to CHANNELS
        invariant Valid() && nowMoment[..] == now && sessionStart[..] == start
        invariant forall k: int :: 0 <= k < i ==> lastElapsed[k] == LastOne(now[k], start[k], last[k])
        invariant forall k: int :: i <= k < CHANNELS ==> lastElapsed[k] == last[k]
        invariant forall k: int :: 0 <= k < i ==>
          diff[SlotFor(k)] == Elapsed(now[k], start[k], last[k]) * 0x100 + SlotFor(k)
      {
        var j := SlotFor(i);
        var elapsed;
        if nowMoment[i] < 0 {
          elapsed := lastElapsed[i];
        } else if sessionStart[i] < 0 {
          elapsed := 0;
        } else {
          elapsed := nowMoment[i] - sessionStart[i];
          if elapsed < 0 {
            elapsed := 0;
          }
          lastElapsed[i] := elapsed;
        }
        diff[j] := elapsed * 0x100 + j;
      }
      diff[FLAG_SLOT] := if baselineRefreshed then 0xff else 0;
      assert lastElapsed[..] == LastAll(now, start, last);
      WordsFrom(diff[..], ElapsedAll(now, start, last), baselineRefreshed);
    }

    /** One pass through the loop of `run`: what the two lookups of the devices give and whether a good
        reply comes back are inputs; the words sent are the result. */
    method Tick(today: nat, clock: int, refresh: Readings, clock2: int, readings: Readings,
                wasConnected: bool, answered: bool)
      returns (diff: array<int>)
      requires Valid()
      modifies this`baselineRefreshed, this`lastDay, sessionStart, nowMoment, lastElapsed
      ensures Valid() && diff.Length == SLOTS
      ensures
        var f := Polled(Refreshed(old(State()), today, PollAll(deviceSerial, clock, refresh)),
                        deviceSerial, PollAll(deviceSerial, clock2, readings));
        && diff[..] == Words(Reported(f), f.flag)
        && State() == Sent(Prepared(f), wasConnected, answered)
    {
      if today != lastDay {
        RefreshSessionStart(clock, refresh);
        lastDay := today;
      }
      assert State() == Refreshed(old(State()), today, PollAll(deviceSerial, clock, refresh));
      Poll(nowMoment, clock2, readings);
      AdoptMissingBaselines();
      ghost var f := State();
      diff := PrepareDiff();
      if wasConnected && answered && baselineRefreshed {
        baselineRefreshed := false;
      }
    }
  }
}
