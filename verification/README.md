# Verified model of the server family

A Dafny 4.11 model of the parts of these servers that keep state over time: the runtime ledger of the
measuring devices and the forwarder that feeds it, the cipher channel between them, the country-ban
index, the splitting of time-zone rules, the connection pool, the file cache and the FastCGI client.
`dafny verify dfyconfig.toml` checks all of it.

Code that changes fields and buffers in place is modelled as classes and methods, each proved against a
function of the state it finds; what the program is for is then proved about those functions, over whole
runs. The pool and the cache are modelled as threads that interleave at every access to what they share.

| files | models |
|---|---|
| `Ledger`, `LedgerTables`, `LedgerInvariant`, `LedgerRuns`, `LedgerBook`, `LedgerStartup`, `LedgerCrash`, `LedgerCutStart`, `LedgerEnvelope`, `LedgerRestart`, `LedgerLoading` | what a device's ledger holds in memory and in its three tables, what every operation makes of it, and what holds over runs |
| `MachineTime` | the ledger object, its loops and its database statements |
| `Hysteresis` | start and stop detection |
| `Calendar` | dates and month numbers |
| `Packets`, `Forwarder`, `EndToEnd` | the data packet, the forwarder, and forwarder and server together |
| `Generator`, `Packing`, `Cipher`, `Channel`, `Cripters` | the byte generator, the 3-to-4 packing, the message codec, the protocol and the two cripter objects |
| `CountryIndex` | address ranges by first byte |
| `RuleSplit` | splitting rules until their years are equal or disjoint |
| `WorkerPool` | the connection pool under all interleavings |
| `FileCache`, `CacheRuns` | the file cache's locked sections, and calls of it racing with each other and with the disk |
| `FastCgi` | records, name-value pairs, the request and the response loop |

## What turned out not to hold

- The forwarder does not clear its last reports when it reads new baselines, so a device that is there for
  the refresh but not for the poll right after it is charged its old report again. `EndToEnd.RefreshOvercounts`
  gives the exact condition, `EndToEnd.RefreshOvercountsOnce` a run; `EndToEnd.NeverMoreThanRuntime` assumes
  the condition.
- A flagged packet whose reply is lost is sent and merged again, unless a new baseline comes first; the total
  is right if and only if it reported nothing (`EndToEnd.LostReplyCountsTwice`, and `EndToEnd.LostReplyOnce`
  for a run).
- A device that starts on a later day writes the old session's seconds into the history first and takes them
  out of the session row with the next write. A crash between the two counts the session twice
  (`LedgerCutStart.CutStartExactly`, and `LedgerCutStart.ClosedTwice` for a run). `LedgerCrash.NoDoubleCount`
  covers every other crash, also while the device starts.
- A CGI parameter without a value, such as SERVER_ADDR on a server without `localIP`, ends the parameter
  stream, and every parameter behind it is lost (`FastCgi.RequestReadWhole`, `FastCgi.MissingValueLoses`).
- A retiring worker stays counted as idle, so the pool stops growing for good after the first retirement
  (`WorkerPool.GrowthGate`, `WorkerPool.NeverGrowsAgain`, and
  `WorkerPool.ReachesStuck` for a run).
- A guard that dies of an unchecked exception leaves its connection open, in nobody's hands, and counted
  (`WorkerPool.Ownership` and `WorkerPool.Counters` with abandoned connections, `WorkerPool.GuardDrops` for a run).
- The file cache reads time and size one after the other and compares them again after the read. It can
  return the wrong content when a file is put back with its old time and size while it is read, and when it
  changes between two adjacent readings (`CacheRuns.PutBackBreaks`, `CacheRuns.TornStatBreaks`,
  `CacheRuns.TornComparisonBreaks`; `CacheRuns.HitIsRightExactly` says exactly when a hit is right).
- CIDRs with a prefix below 8 are found only for addresses with the network's own first byte
  (`CountryIndex.IndexIsScanExactly`).
- After a restart on a later day no stop is recorded for a channel that was working
  (`Hysteresis.StartsMinusStops`), so that it can start twice in a row: `Hysteresis.Alternation` says exactly
  when starts and stops alternate, `Hysteresis.TwoStarts` is a run in which they do not.

## Model

| member | source | states |
|---|---|---|
| `LedgerBook.Conservation` | esp8266_decoder/source/MachineTime.cpp:236-294 | over any run of packets, resets, day and month rollovers, saves and clean restarts, the seconds of every recorded day, each day once, plus the open session are what they were plus the last value before each reset plus the last value received |
| `LedgerBook.RunRefines` | esp8266_decoder/source/MachineTime.cpp:462-559 | over any run the machine (two months in memory, three tables) stands for one map from days to seconds and an open session, run in step, and its invariant holds at the end |
| `LedgerBook.ApplyRefines` | esp8266_decoder/source/MachineTime.cpp:275-294 | one packet, save or restart does to the two stores together what the account book says, and keeps the invariant |
| `LedgerBook.AccountConserves` | esp8266_decoder/source/MachineTime.cpp:275-294 | the account book gains exactly what a run received |
| `LedgerBook.RestartRefines` | esp8266_decoder/source/MachineTime.cpp:462-504 | destructor and constructor together close the open session into its own day on a later day and change nothing on the same day |
| `LedgerInvariant.InvNewDay` | esp8266_decoder/source/MachineTime.cpp:236-244 | a new day in the same month keeps memory ascending, within one month, and every earlier day's rows identical to memory |
| `LedgerInvariant.InvNewMonth` | esp8266_decoder/source/MachineTime.cpp:246-273 | a new day in another month moves the month to the old month and keeps the same facts |
| `LedgerInvariant.InvTrim` | esp8266_decoder/source/MachineTime.cpp:258-269 | deleting events older than the month that leaves memory loses none of the days in memory |
| `LedgerRuns.InvNewSession` | esp8266_decoder/source/MachineTime.cpp:275-294 | every session reset keeps the invariant of memory and tables |
| `LedgerRuns.InvPacket` | esp8266_decoder/source/MachineTime.cpp:515-559 | every packet keeps the invariant and the current day is the packet's day when it resets |
| `LedgerRuns.InvSaveToday` | esp8266_decoder/source/MachineTime.cpp:656-664 | the periodic save keeps the invariant |
| `LedgerRuns.InvStartup` | esp8266_decoder/source/MachineTime.cpp:364-495 | whatever tables a device left, the constructor establishes the invariant, with today as the current day |
| `LedgerRuns.ShutdownOk` | esp8266_decoder/source/MachineTime.cpp:496-504 | the tables the destructor leaves are ones the constructor accepts |
| `LedgerTables.SavedDay` | esp8266_decoder/source/MachineTime.cpp:127-186 | saving a day makes the tables read back exactly that day, times and both event lists |
| `LedgerTables.SavedDayOthers` | esp8266_decoder/source/MachineTime.cpp:127-186 | and leaves every other day as it reads |
| `LedgerTables.TrimmedDay` | esp8266_decoder/source/MachineTime.cpp:258-269 | trimming leaves every day from the threshold on as it reads |
| `LedgerTables.LoadMonthDays` | esp8266_decoder/source/MachineTime.cpp:375-398 | loading a month lists exactly its recorded days, ascending |
| `LedgerCrash.NoDoubleCount` | esp8266_decoder/source/MachineTime.cpp:188-207 | over any run with crashes at any write boundary, also while the device starts, no day and channel ever shows more than a book that crashes do not touch, when values are non-negative and do not fall within a session, and no start is cut off between the two writes that close an earlier day's session |
| `LedgerCrash.CommitsCovered` | esp8266_decoder/source/MachineTime.cpp:275-294 | at every committed write of packets, resets, saves and the destructor, durable history plus durable session of a day stay within the live total |
| `LedgerCrash.NewSessionCovered` | esp8266_decoder/source/MachineTime.cpp:275-294 | zeroing the session row before the merged day is written keeps both writes within the live total |
| `LedgerCrash.NeverMoreThanReceived` | esp8266_decoder/source/MachineTime.cpp:462-490 | after any number of such crashes a device shows no more than the run received with every crash replaced by a clean restart |
| `LedgerCrash.TriedSafe` | esp8266_decoder/source/MachineTime.cpp:464-494 | a device whose starts are cut off any number of times after any other write is, once started, within the reference book |
| `LedgerCutStart.CutStartExactly` | esp8266_decoder/source/MachineTime.cpp:471-494 | a start that is cut off adds the old session's seconds to what the device shows after the next one if it is cut off between these two writes, and nothing otherwise |
| `LedgerCutStart.ClosedTwice` | esp8266_decoder/source/MachineTime.cpp:471-494 | a run in which a new device receives 500 seconds and shows 1000 |
| `LedgerStartup.ReachedOk` | esp8266_decoder/source/MachineTime.cpp:400-494 | the tables that a start leaves behind when it is cut off after any write can be started from |
| `LedgerCrash.FreshDevice` | esp8266_decoder/source/MachineTime.cpp:364-383 | a device without rows starts as the empty book of its day, in the invariant and safe |
| `LedgerCrash.NewDeviceRecords` | esp8266_decoder/source/MachineTime.cpp:236-294 | from a new device on, every run records exactly what it received |
| `LedgerCrash.NewDeviceNeverMore` | esp8266_decoder/source/MachineTime.cpp:188-207 | and with crashes at any write boundary but that one no more than that |
| `LedgerCrash.RecoverSafe` | esp8266_decoder/source/MachineTime.cpp:462-490 | starting from any covered tables gives a machine that is again within the reference book |
| `LedgerRestart.RestartSameDay` | esp8266_decoder/source/MachineTime.cpp:364-504 | destructor and constructor on the same day give back all days of the two months, session times and the working mask; only pending counts start again |
| `LedgerRestart.SecondRestartAddsNothing` | esp8266_decoder/source/MachineTime.cpp:468-490 | on a later day the session is closed once: a second restart that day changes no entry |
| `Ledger.MaskRoundTrip` | esp8266_decoder/source/MachineTime.cpp:190-193 | the working mask of the session row gives back every channel's flag |
| `Hysteresis.AutomatonIsTrace` | esp8266_decoder/source/MachineTime.cpp:534-552 | the pending-count automaton records a change exactly at the third packet against the state since the last one for it or the last change, falling packets ignored; the pending count is that streak and stays within 0 to 2 |
| `Hysteresis.DetectionIsTrace` | esp8266_decoder/source/MachineTime.cpp:529-556 | over any run without restarts the machine records starts and stops of a channel alternately, one for each change of the trace definition |
| `Hysteresis.Alternation` | esp8266_decoder/source/MachineTime.cpp:534-552 | over any run, starts and stops of a channel alternate over all days if and only if nothing more is recorded for it after the first restart on a later day that finds it working |
| `Hysteresis.TwoStarts` | esp8266_decoder/source/MachineTime.cpp:464-482 | a run from a new device, with one restart on a later day, in which a channel starts twice and never stops |
| `Hysteresis.RecordsAppended` | esp8266_decoder/source/MachineTime.cpp:536-550 | what a step records it appends to the current day's lists, and it touches no other day |
| `Hysteresis.StartsMinusStops` | esp8266_decoder/source/MachineTime.cpp:529-556 | over all days, starts minus stops of a channel tracks whether it works, up to the channels a restart on a later day silently stops |
| `MachineTime.MachineTime.constructor` | esp8266_decoder/source/MachineTime.cpp:364-495 | reading the tables row by row in place gives the machine the loading functions describe, and the list of committed table states: every deletion, the closed session, the new session row |
| `MachineTime.MachineTime.FindOrCreateDay` | esp8266_decoder/source/MachineTime.cpp:118-125 | finds the day or inserts an empty one in ascending place |
| `MachineTime.MachineTime.LoadHistory` | esp8266_decoder/source/MachineTime.cpp:375-398 | the history loop fills the two months with exactly their recorded days |
| `MachineTime.MachineTime.LoadEvents` | esp8266_decoder/source/MachineTime.cpp:400-438 | the event loop rebuilds every start and stop list in insertion order and deletes the days outside the window, one commit each |
| `MachineTime.MachineTime.RestoreSession` | esp8266_decoder/source/MachineTime.cpp:440-482 | a session of today is restored, an earlier one is added to its own day |
| `MachineTime.MachineTime.NewDay` | esp8266_decoder/source/MachineTime.cpp:236-244 | the statements issued and the fields afterwards |
| `MachineTime.MachineTime.NewMonth` | esp8266_decoder/source/MachineTime.cpp:246-273 | the statements issued and the fields afterwards |
| `MachineTime.MachineTime.NewSession` | esp8266_decoder/source/MachineTime.cpp:275-294 | in-place merge, zeroed session row, rollovers: the machine and the list of committed table states |
| `MachineTime.MachineTime.SetChannels` | esp8266_decoder/source/MachineTime.cpp:529-556 | the loop over the nineteen channels gives every channel its own hysteresis step and event |
| `MachineTime.MachineTime.Set` | esp8266_decoder/source/MachineTime.cpp:515-559 | a packet of eighty bytes does to the object what the packet function says; any other size changes nothing |
| `MachineTime.MachineTime.UpdateToday` | esp8266_decoder/source/MachineTime.cpp:656-664 | two committed writes, memory unchanged |
| `MachineTime.MachineTime.Close` | esp8266_decoder/source/MachineTime.cpp:496-504 | one transaction with history, session and events of the current day |
| `MachineTime.MachineTime.Get` | esp8266_decoder/source/MachineTime.cpp:565-590 | in every state that keeps the invariant, every recorded day is answered with its ledger value, from memory or from the database, and no other day is |
| `Calendar.CalendarClock.Update` | servak_na_linux/server/my_time.cpp:184-246 | the counting loop ends in the date whose day number is the count, with weekday (count + 3) mod 7 + 1 |
| `Calendar.DateOfNumber` | servak_na_linux/server/my_time.cpp:184-246 | the date counted up to has the count as its closed-form day number and is valid |
| `Calendar.NumberOfDate` | servak_na_linux/server/my_time.cpp:184-246 | every valid date from 1970 on is the one its day number counts up to |
| `Calendar.DayNumberOrder` | servak_na_linux/server/my_time.cpp:184-246 | day numbers order valid dates as the calendar does |
| `Calendar.MonthOfGrows` | esp8266_decoder/source/my_time.cpp:26-40 | month numbers do not fall as days grow, so a month's days are an interval |
| `EndToEnd.NeverMoreThanRuntime` | servak_na_linux_2_java/source/MachineTimeForwarder.java:91-234 | forwarder and server together: over any run of rounds, losses, restarts of both and crashes of the server, recorded seconds never exceed the device's runtime since the first baseline, if no flagged packet is processed to its end after another of the same baseline that got no good reply, runtime does not fall, the device is there whenever a baseline is read and answers the poll after it or has a last report of no more than it ran since it was last seen, and, for crashes, the server's tables are within the book and no start is cut off between the two writes that close a session |
| `EndToEnd.FromAnyServer` | servak_na_linux_2_java/source/MachineTimeForwarder.java:91-234 | without crashes this holds from any server in the ledger's invariant |
| `EndToEnd.FromNewDevice` | servak_na_linux_2_java/source/MachineTimeForwarder.java:91-234 | with crashes while packets are processed, while days are saved and while the server starts, it holds from a new device |
| `EndToEnd.GoodStep` | servak_na_linux_2_java/source/MachineTimeForwarder.java:171-234 | the invariant behind it, kept by every round, save, restart and crash |
| `EndToEnd.SafeStep` | esp8266_decoder/source/MachineTime.cpp:515-559 | every step keeps the server and its tables within the book |
| `LedgerEnvelope.PacketCut` | esp8266_decoder/source/MachineTime.cpp:515-559 | a crash after any write of a packet leaves no more than the book after its reset: the packet's values are not in the tables yet |
| `LedgerEnvelope.PacketSafe` | esp8266_decoder/source/MachineTime.cpp:515-559 | a packet, also one whose values fall, leaves no more than a book that keeps the largest value of every channel |
| `EndToEnd.RefreshOvercounts` | servak_na_linux_2_java/source/MachineTimeForwarder.java:171-230 | after a delivered refresh round on an up-to-date channel the bound holds if and only if the device answered the poll or its stale report is no more than it ran since last seen |
| `EndToEnd.RefreshOvercountsOnce` | servak_na_linux_2_java/source/MachineTimeForwarder.java:171-222 | a run in which devices that ran 500 seconds are recorded with 1000 |
| `EndToEnd.LostReplyCountsTwice` | servak_na_linux_2_java/source/MachineTimeForwarder.java:159-160 | the forwarder sends a flagged packet whose reply is lost again; after the next round that arrives the bound holds if and only if the first packet reported nothing |
| `EndToEnd.LostReplyOnce` | servak_na_linux_2_java/source/MachineTimeForwarder.java:147-164 | a run from a new device in which a reply is lost and more is recorded than the devices ran |
| `Forwarder.PacketRoundTrip` | esp8266_decoder/source/MachineTime.cpp:329-334 | the server reads back exactly the seconds sent if and only if they fit 23 bits, never more than were sent, and the flag always |
| `Forwarder.SlotsAgree` | servak_na_linux_2_java/source/MachineTimeForwarder.java:216-217 | the slots i + i/11 are those the server reads and miss slot 11 |
| `Forwarder.WordsRead` | servak_na_linux_2_java/source/MyCripter.java:155-164 | the four bytes of a word, least significant first, read back as its low 32 bits with sign |
| `Forwarder.MachineTimeForwarder.constructor` | servak_na_linux_2_java/source/MachineTimeForwarder.java:91-96 | the first baselines are read and the flag raised |
| `Forwarder.MachineTimeForwarder.Poll` | servak_na_linux_2_java/source/MachineTimeForwarder.java:192-208 | clock, 0 for a free input, -1 for a missing device, else its runtime |
| `Forwarder.MachineTimeForwarder.RefreshSessionStart` | servak_na_linux_2_java/source/MachineTimeForwarder.java:171-174 | new baselines and the flag; the last reports stay as they were |
| `Forwarder.MachineTimeForwarder.AdoptMissingBaselines` | servak_na_linux_2_java/source/MachineTimeForwarder.java:180-185 | only a mapped input without baseline adopts its reading |
| `Forwarder.MachineTimeForwarder.PrepareDiff` | servak_na_linux_2_java/source/MachineTimeForwarder.java:214-234 | the twenty words and the remembered reports |
| `Forwarder.MachineTimeForwarder.Tick` | servak_na_linux_2_java/source/MachineTimeForwarder.java:98-111 | one pass of the loop: the words sent and the whole new state, with the flag lowered only by a good reply to data |
| `Channel.LockStep` | servak_na_linux_2_java/source/MyCripter.java:122-168 | over any run of exchanges, losses and server restarts, two ends that are both connected have the same generator, if no checksum matches by chance |
| `Channel.Recovers` | servak_na_linux_2_java/source/MyCripter.java:122-168 | from any state of both ends two whole exchanges synchronise them |
| `Channel.HandshakeSynchronises` | esp8266_decoder/source/MyCrypter.h:305-345 | from any two generators one handshake with a disconnected server makes both generators equal |
| `Channel.DataDelivered` | esp8266_decoder/source/MyCrypter.h:220-293 | synchronised ends stay so through a data exchange and the server gets exactly the data |
| `Channel.TakenIsSent` | esp8266_decoder/source/MachineTime.cpp:506-521 | the server never takes anything but what the client sent, as what it was sent for |
| `Channel.ReplyHeard` | servak_na_linux_2_java/source/MyCripter.java:122-133 | a reply under the client's generator connects the client exactly when it is the static response, and leaves both generators equal |
| `Cipher.CodecRoundTrip` | esp8266_decoder/source/MyCrypter.h:220-293 | for every generator state and message, in every pairing of the two languages, decoding gives the message back and equal generators if and only if the length fits the 16-bit counts: 24572 bytes into the server, 98300 out of it |
| `Cipher.CodBuf` | esp8266_decoder/source/MyCrypter.h:220-237 | masking, checksum, reseeding and packing |
| `Cipher.DecodBuf` | servak_na_linux_2_java/source/MyCripter.java:76-120 | unpacking, unmasking in place, checksum test and reseeding |
| `Cipher.UnpackRequest` | esp8266_decoder/source/MyCrypter.h:239-272 | the shape tests and the bytes of a request |
| `Cipher.Mask` | esp8266_decoder/source/MyCrypter.h:276-279 | the unmasking loop crosses each byte with the generator's next one and sums what it leaves |
| `Cripters.ServerCripter.Decrypt` | esp8266_decoder/source/MyCrypter.h:305-345 | the server object's decrypt is the server step of the protocol |
| `Cripters.ServerCripter.Answer` | esp8266_decoder/source/MachineTime.cpp:506-559 | and its replies |
| `Cripters.ClientCripter.Encrypt` | servak_na_linux_2_java/source/MyCripter.java:135-153 | the client object's encrypt is the client step of the protocol |
| `Cripters.ClientCripter.ValidationResponse` | servak_na_linux_2_java/source/MyCripter.java:122-133 | the padded buffer read up to its first zero is the static response exactly when the message is |
| `Cripters.ClientCripter.Conclude` | servak_na_linux_2_java/source/MachineTimeForwarder.java:147-164 | no reply disconnects, and one that is not good |
| `Cripters.ClientCripter.Decrypt` | servak_na_linux_2_java/source/MyCripter.java:166-169 | connected exactly when the response validates |
| `Generator.MyRand.Rand` | esp8266_decoder/source/MyCrypter.h:62-65 | the next byte of the stateless stream of ChaCha20 blocks, whatever the buffer holds |
| `Generator.MyRand.GenBlock` | servak_na_linux_2_java/source/MyRand3.java:40-63 | the buffer is, byte for byte, the block function of section 2.3 of RFC 8439 on the state, and the counter advances |
| `Generator.MyRand.Qr` | servak_na_linux_2_java/source/MyRand3.java:33-38 | the in-place quarter round is that of section 2.2 of RFC 8439 |
| `Generator.MyRand.Srand` | esp8266_decoder/source/MyCrypter.h:67-78 | the stream restarts from the seeded state, four bytes in, whatever was buffered |
| `Generator.MyRand.Korr` | servak_na_linux_2_java/source/MyRand3.java:86-93 | the stream restarts from the corrected state, four bytes in, whatever was buffered |
| `Generator.NextBlock` | servak_na_linux_2_java/source/MyRand3.java:65-69 | when all begun blocks are read, the next 64 bytes of the stream are the block of the state, and reading on advances its counter |
| `Generator.QuarterVector` | servak_na_linux_2_java/source/MyRand3.java:33-38 | the quarter round gives the values of section 2.1.1 of RFC 8439 |
| `Generator.MacroRotates` | esp8266_decoder/source/MyCrypter.h:11-16 | the macro's shifts are the rotations |
| `Packing.CodecRoundTrip` | servak_na_linux_2_java/source/DBClass.java:107-157 | decoding undoes encoding if and only if the message has at most 24573 bytes |
| `Packing.EncodeCustomBase64` | servak_na_linux_2_java/source/DBClass.java:138-157 | the in-place encoder is the packing, with its 16-bit counts and the sizes at which it throws |
| `Packing.DecodeCustomBase64` | servak_na_linux_2_java/source/DBClass.java:107-135 | the in-place decoder is the unpacking, with its 16-bit counts and the inputs on which it throws |
| `Packing.ToBase64` | esp8266_decoder/source/MyCrypter.h:172-218 | the branching packer gives the packing of the message with its checksum behind it, with each language's block count |
| `Packing.PackerIsEncoder` | servak_na_linux_2_java/source/DBClass.java:138-157 | which is what the encoder gives for every message with checksum of at most 24573 bytes |
| `Packing.WirePrintable` | esp8266_decoder/source/http_parser.cpp:119-125 | every byte of a wire passes the printable filter |
| `Packing.Wire` | servak_na_linux_2_java/source/DBClass.java:138-157 | a wire has ceil(n / 3) * 4 + 1 bytes |
| `Packing.UnpackMessage` | esp8266_decoder/source/MyCrypter.h:268-272 | a message and its checksum are found again in their wire |
| `CountryIndex.IndexIsScan` | servak_na_linux_2_java/source/FirewallIP.java:432-448 | with prefixes of at least 8, looking in the list of the first byte finds exactly what a scan of everything loaded finds |
| `CountryIndex.IndexIsScanExactly` | servak_na_linux_2_java/source/FirewallIP.java:258-295 | for a single CIDR index and scan agree on all addresses if and only if its prefix is at least 8 |
| `CountryIndex.RangeIndex.OptimizeRange` | servak_na_linux_2_java/source/FirewallIP.java:176-250 | the merge loop ends, keeps the union of addresses, and leaves the list disjoint and free of ranges that match the new one |
| `CountryIndex.RangeIndex.Load` | servak_na_linux_2_java/source/FirewallIP.java:258-295 | after every CIDR each list is pairwise disjoint and holds exactly the addresses loaded under its first byte |
| `CountryIndex.RangeIndex.LoadAll` | servak_na_linux_2_java/source/FirewallIP.java:264-294 | the same for a whole list |
| `CountryIndex.RangeIndex.IsBanned` | servak_na_linux_2_java/source/FirewallIP.java:432-448 | the lookup says yes exactly when a range loaded under the address's first byte contains it |
| `CountryIndex.MergeUnion` | servak_na_linux_2_java/source/FirewallIP.java:189-196 | two ranges that share an address match, their merge is one of them and holds exactly the addresses of both |
| `CountryIndex.MatchShares` | servak_na_linux_2_java/source/FirewallIP.java:189-196 | ranges that match share an address |
| `CountryIndex.RangeOfOk` | servak_na_linux_2_java/source/FirewallIP.java:327-333 | the mask of any parsed prefix is ones followed by zeros and the network lies under it |
| `CountryIndex.StrayEscapes` | servak_na_linux_2_java/source/FirewallIP.java:272-276 | a range whose mask does not cover the first byte has an address of another list |
| `RuleSplit.RuleVector.SplitOverlaps` | esp8266_decoder/source/tz.cpp:1557-1574 | terminates on every sorted group, keeps the rules in force in every year, leaves any two year intervals equal or disjoint, and nothing else in the vector changes |
| `RuleSplit.RuleVector.Split` | esp8266_decoder/source/tz.cpp:1488-1555 | the rules the split leaves in place of two overlapping ones, and the new end of the group |
| `RuleSplit.RuleVector.Compare` | esp8266_decoder/source/tz.cpp:1566-1570 | the body of the inner loop keeps the loop's invariant |
| `RuleSplit.InForceCounts` | esp8266_decoder/source/tz.cpp:1488-1555 | what is kept is, for every year and rule content, how many rules are in force |
| `RuleSplit.SplitKeepsYears` | esp8266_decoder/source/tz.cpp:1488-1555 | a split keeps every year's rules in force |
| `RuleSplit.SettledPair` | esp8266_decoder/source/tz.cpp:1557-1574 | two finished rules have equal or disjoint years |
| `WorkerPool.Ownership` | servak_na_linux_2_java/source/WorkerPool.java:127-224 | in every interleaving a connection is as often in a queue, in a thread's hands, closed or abandoned as it was submitted |
| `WorkerPool.NoTwoOwners` | servak_na_linux_2_java/source/WorkerPool.java:282-312 | no two threads run the same connection, and none runs one that is queued, closed or abandoned |
| `WorkerPool.Counters` | servak_na_linux_2_java/source/WorkerPool.java:88-98 | in every interleaving guardedCount, idleWorkers and totalWorkers count what is named, where idleWorkers also counts every worker that ever retired; a crash and its replacement leave totalWorkers as it was |
| `WorkerPool.GrowthGate` | servak_na_linux_2_java/source/WorkerPool.java:132-136 | a thread that tests for an idle worker goes on to grow the pool if and only if none is idle and none has ever retired |
| `WorkerPool.ReachesStuck` | servak_na_linux_2_java/source/WorkerPool.java:132-149 | a run in which a pool grows once, a worker retires, and it can never grow again |
| `WorkerPool.NeverGrowsAgain` | servak_na_linux_2_java/source/WorkerPool.java:132-149 | once a worker has retired and no thread is in the middle of growing the pool, it never grows again |
| `WorkerPool.InvNext` | servak_na_linux_2_java/source/WorkerPool.java:348-386 | every atomic step of every thread keeps the accounts |
| `WorkerPool.GuardDrops` | servak_na_linux_2_java/source/WorkerPool.java:348-386 | a run in which an unchecked exception takes a guard away: nobody has its connection, nobody closed it, and it stays counted |
| `CacheRuns.HitIsRight` | servak_na_linux_2_java/source/FileCacheManager.java:115-165 | on a disk where equal time and size mean equal content, over any interleaving of calls and changes, a hit returns the content of the version whose time and size the call read, if these are of one version and the stored read saw the version with its entry's time and size |
| `CacheRuns.HitIsRightExactly` | servak_na_linux_2_java/source/FileCacheManager.java:115-165 | where content also tells time and size, if and only if |
| `CacheRuns.EntryIsSound` | servak_na_linux_2_java/source/FileCacheManager.java:154-162 | on a disk where no pair of time and size comes back, comparing both again after the read makes every cached file the version its pair names, unless the file changed between two adjacent readings |
| `CacheRuns.HitIsFresh` | servak_na_linux_2_java/source/FileCacheManager.java:129-138 | and then a hit whose own time and size are of one version is right |
| `CacheRuns.PutBackBreaks` | servak_na_linux_2_java/source/FileCacheManager.java:140-164 | a file put back with its old time and size while it is read: a hit returns the other content |
| `CacheRuns.TornStatBreaks` | servak_na_linux_2_java/source/FileCacheManager.java:119-135 | a time of one version and a size of the next that make up the pair of an older one: a hit returns content the file no longer had |
| `CacheRuns.TornComparisonBreaks` | servak_na_linux_2_java/source/FileCacheManager.java:154-162 | a comparison after the read torn the same way: another version is stored under the pair |
| `FileCache.Cache.Lookup` | servak_na_linux_2_java/source/FileCacheManager.java:129-138 | a fresh entry is returned and touched, a stale one dropped with its bytes |
| `FileCache.Cache.Store` | servak_na_linux_2_java/source/FileCacheManager.java:158-163 | the entry replaces its predecessor, then the least recently used files make room |
| `FileCache.Cache.EvictStale` | servak_na_linux_2_java/source/FileCacheManager.java:387-404 | exactly the idle entries go, then the limit is enforced |
| `FileCache.Cache.EnforceSizeLimit` | servak_na_linux_2_java/source/FileCacheManager.java:421-436 | the cache fits, files went in order of last access, none later than one that stays, and without the last eviction it would not fit |
| `FileCache.Cache.ClearCache` | servak_na_linux_2_java/source/FileCacheManager.java:410-418 | nothing is left and the count is zero |
| `FileCache.Cache.DropFile` | servak_na_linux_2_java/source/FileCacheManager.java:439-444 | the byte count follows the entry |
| `FileCache.TrimmedFits` | servak_na_linux_2_java/source/FileCacheManager.java:421-422 | nothing is evicted from a cache that fits |
| `FastCgi.RequestRead` | servak_na_linux_2_java/source/PhpFpmHandler.java:84-99 | a reader of sections 3.3 and 3.4 of the FastCGI Specification 1.0 recovers exactly the parameters that fit one record in front of the first one without a value, in order, and the whole body |
| `FastCgi.RequestReadWhole` | servak_na_linux_2_java/source/PhpFpmHandler.java:284-289 | it recovers all parameters that fit if and only if none of them comes after one without a value |
| `FastCgi.MissingValueLoses` | servak_na_linux_2_java/source/PhpFpmHandler.java:234-242 | a parameter behind a missing local address is lost |
| `FastCgi.NoEarlyEnd` | servak_na_linux_2_java/source/PhpFpmHandler.java:90-99 | no empty STDIN record goes out before the one that ends the body |
| `FastCgi.ResponseComplete` | servak_na_linux_2_java/source/PhpFpmHandler.java:103-148 | whatever output, error and unknown records come first, with any padding, the page is the output put together |
| `FastCgi.ResponseCut` | servak_na_linux_2_java/source/PhpFpmHandler.java:104-109 | input that stops before the end record gives a timeout |
| `FastCgi.PairsBack` | servak_na_linux_2_java/source/PhpFpmHandler.java:284-313 | name-value pairs with one- and four-byte lengths read back |
| `FastCgi.LengthBack` | servak_na_linux_2_java/source/PhpFpmHandler.java:345-355 | an encoded length reads back |
| `FastCgi.Connection.SendRequest` | servak_na_linux_2_java/source/PhpFpmHandler.java:85-99 | the bytes of a whole request are those of its records |
| `FastCgi.Connection.SendParam` | servak_na_linux_2_java/source/PhpFpmHandler.java:284-313 | one record, the end record where name or value is missing, or nothing for a parameter that does not fit |
| `FastCgi.Connection.SendStdin` | servak_na_linux_2_java/source/PhpFpmHandler.java:318-327 | one padded record, or the end record |
| `FastCgi.Connection.SendBody` | servak_na_linux_2_java/source/PhpFpmHandler.java:90-99 | the slicing loop sends the body's slices and the end |
| `FastCgi.Input.ReadResponse` | servak_na_linux_2_java/source/PhpFpmHandler.java:103-148 | the loop over the input gives the response the input means |
| `FastCgi.Input.RecvChunk` | servak_na_linux_2_java/source/NetworkClient.java:224-250 | exactly the bytes asked for, or nothing |

## Left out

- The clock is read once per call of `new_session`, where the source reads it again for the new day; a midnight between the two readings is not modelled.
- The mode without a database, channel names, several devices sharing one connection, and locking inside `MachineTime`: calls on one device are in sequence.
- 32-bit overflow of second totals, and days beyond 24855, where the source's day arithmetic overflows.
- The JSON and HTML text around the numbers, and `get_events`.
- Offset changes that move the local day backwards; server and forwarder use the same local day.
- Event rows with a channel outside 0 to 18, which the program never writes.
- Forwarder.PacketRoundTrip: is about the words as sent; the cipher between the two ends is `Cipher` and `Channel`.
- How the client draws its 64-byte seed: the loop that redraws one character is not proved to end, and the seed is an input.
- Channel.LockStep: assumes that no one-byte checksum matches by chance, written out in `Channel.NoChance`; nothing is said about secrecy.
- HTTP, sockets and TLS around the channel; a reply that is not 200 is a lost reply.
- `std::sort` is any sorted rearrangement; canonical day forms after splitting, and the caller of `split_overlaps` that groups rules by name and trims years.
- Parsing of address text, including IPv6 text after `::`, and the byte order of addresses; prefixes are integers as parsed.
- WorkerPool.Counters: `reconcile`, which now and then overwrites `totalWorkers` with the number of living threads, is outside the interleavings: beside a worker that is just starting or leaving it can put that counter off by one until it runs again. Failing thread starts, which it is for, are not modelled.
- Interrupts in the pool, which nobody sends; the idle ratio is compared as a fraction, not a double.
- Exceptions in `maybeGrowGuards` after a connection has been queued for the guards.
- The directory cache and the PHP path set of the file cache; `file.length` and `file.isFile` are one step.
- FileCache.Cache.ClearCache: the number it returns leaves out the directory cache.
- CacheRuns.HitIsRight: says nothing about what a miss returns, which can be a file in the middle of a change.
- Which CGI parameters are sent, and what is done with a page that asks for a ban.
- The relay servers, the LiraCalc files, the AI proxy, the C++ worker pool and the rest of `tz.cpp`.
