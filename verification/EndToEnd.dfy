/** Forwarder and server together: what the server records never exceeds what the devices ran. */
module EndToEnd {
  import opened Options
  import opened Ledger
  import opened LedgerInvariant
  import opened LedgerRuns
  import opened LedgerBook
  import opened LedgerStartup
  import opened LedgerCrash
  import opened LedgerEnvelope
  import opened Packets
  import opened Forwarder

  /** `seen` is the last runtime each device showed, `clock` the latest local day anybody acted on.
      `unanswered` says that a marked packet of the current baseline was processed without a good reply,
      and `book` is the account book that bounds what the server has. */
  datatype System = System(serials: Serials, f: Fwd, server: Machine, book: Account, seen: Times, clock: nat,
                           unanswered: bool)

  /** A crash after `at` database writes, attempts to start that were cut off, and the day of the start. */
  datatype Recovery = Recovery(at: nat, attempts: seq<Attempt>, day: nat)

  /** What became of one exchange: the request never got there; or it was processed, and the reply came
      back good or did not; or the server crashed while it processed it. */
  datatype Outcome = Lost | Delivered(replyGood: bool) | Cut(recovery: Recovery)

  datatype Step =
    | Round(today: nat, second: int, clock: int, refresh: Readings, clock2: int, poll: Readings, outcome: Outcome)
    | ForwarderRestart(today: nat, clock: int, readings: Readings)
    | ServerSave
    | ServerRestart(day: nat)
    | ServerCrash(recovery: Recovery)

  // ---------------------------------------------------------------------------------------------
  // Steps
  // ---------------------------------------------------------------------------------------------

  /** The forwarder when it builds the packet of a round. */
  function Measured(s: System, step: Step): Fwd
    requires step.Round?
  {
    Polled(Refreshed(s.f, step.today, PollAll(s.serials, step.clock, step.refresh)),
           s.serials, PollAll(s.serials, step.clock2, step.poll))
  }

  function Data(f: Fwd): (data: seq<Byte>)
    ensures |data| == 4 * SLOTS
  {
    PacketBytes(Reported(f), f.flag)
  }

  /** The packet of a round as the server reads it. */
  function PutOf(s: System, step: Step): Op
    requires step.Round?
  {
    Put(step.today, step.second, Flag(Data(Measured(s, step))), Values(Data(Measured(s, step))))
  }

  function CrashIn(op: Op, r: Recovery): Event {
    Crash(op, r.at, r.attempts, r.day)
  }

  /** The book when the server is back. */
  function BookRecovered(a: Account, r: Recovery): Account {
    AccountRestart(AccountTried(a, r.attempts), r.day)
  }

  /** What the server does in a step. A crash between packets is one at some write of a save. */
  function ServerNext(s: System, step: Step): (m: Machine)
    requires s.server.month != []
    ensures m.month != []
  {
    match step
    case Round(_, _, _, _, _, _, outcome) =>
      (match outcome
       case Lost => s.server
       case Delivered(_) => Apply(s.server, PutOf(s, step))
       case Cut(r) => Happen(s.server, CrashIn(PutOf(s, step), r)))
    case ForwarderRestart(_, _, _) => s.server
    case ServerSave => Apply(s.server, Save)
    case ServerRestart(day) => Apply(s.server, Restart(day))
    case ServerCrash(r) => Happen(s.server, CrashIn(Save, r))
  }

  function BookNext(s: System, step: Step): Account {
    match step
    case Round(_, _, _, _, _, _, outcome) =>
      var put := PutOf(s, step);
      (match outcome
       case Lost => s.book
       case Delivered(_) => EnvelopePut(s.book, put.today, put.flag, put.values)
       case Cut(r) => BookRecovered(Reset(s.book, put.today, put.flag), r))
    case ForwarderRestart(_, _, _) => s.book
    case ServerSave => s.book
    case ServerRestart(day) => AccountRestart(s.book, day)
    case ServerCrash(r) => BookRecovered(s.book, r)
  }

  /** What a new baseline reads, if the step reads one. */
  function Baseline(s: System, step: Step, ch: Channel): Option<int> {
    match step
    case Round(today, _, clock, refresh, _, _, _) =>
      if today != s.f.day then Some(PollOne(s.serials, clock, refresh, ch)) else None
    case ForwarderRestart(_, clock, readings) => Some(PollOne(s.serials, clock, readings, ch))
    case _ => None
  }

  /** The latest runtime shown before the poll of a round: by the new baseline, else before. */
  function SeenBefore(s: System, step: Step, ch: Channel): int {
    var r := Baseline(s, step, ch);
    if r.Some? && r.value >= 0 then r.value else s.seen[ch]
  }

  /** The latest runtime shown after a step. */
  function SeenAt(s: System, step: Step, ch: Channel): int {
    if step.Round? && PollOne(s.serials, step.clock2, step.poll, ch) >= 0
    then PollOne(s.serials, step.clock2, step.poll, ch)
    else SeenBefore(s, step, ch)
  }

  function SeenAll(s: System, step: Step): Times {
    seq(CHANNELS, i requires 0 <= i < CHANNELS => SeenAt(s, step, i))
  }

  /** A marked packet of the baseline in use was already processed without a good reply. */
  predicate Owing(s: System, step: Step)
    requires step.Round?
  {
    s.unanswered && step.today == s.f.day
  }

  function ClockAfter(s: System, step: Step): nat {
    match step
    case Round(today, _, _, _, _, _, outcome) => if outcome.Cut? then outcome.recovery.day else today
    case ForwarderRestart(today, _, _) => today
    case ServerSave => s.clock
    case ServerRestart(day) => day
    case ServerCrash(r) => r.day
  }

  function Next(s: System, step: Step): System
    requires s.server.month != []
  {
    var s' := s.(server := ServerNext(s, step), book := BookNext(s, step), seen := SeenAll(s, step),
                 clock := ClockAfter(s, step));
    match step
    case Round(_, _, _, _, _, _, outcome) =>
      s'.(f := Sent(Forwarder.Prepared(Measured(s, step)), true, outcome == Delivered(true)),
          unanswered := if outcome.Delivered? then Measured(s, step).flag && !outcome.replyGood else Owing(s, step))
    case ForwarderRestart(today, clock, readings) =>
      s'.(f := Fwd(PollAll(s.serials, clock, readings), Zero(), Zero(), true, today), unanswered := false)
    case _ => s'
  }

  // ---------------------------------------------------------------------------------------------
  // What the surroundings promise
  // ---------------------------------------------------------------------------------------------

  /** The clock does not run backwards, and no marked packet is processed to its end after one of the same
      baseline that was, and got no good reply. */
  predicate Orderly(s: System, step: Step) {
    match step
    case Round(today, _, _, _, _, _, outcome) =>
      && s.clock <= today && (outcome.Cut? ==> InOrder(today, outcome.recovery.attempts, outcome.recovery.day))
      && (Owing(s, step) ==> !outcome.Delivered?)
    case ForwarderRestart(today, _, _) => s.clock <= today
    case ServerSave => true
    case ServerRestart(day) => s.clock <= day
    case ServerCrash(r) => InOrder(s.clock, r.attempts, r.day)
  }

  /** The runtime on a channel does not fall, and the device is there when a baseline is read; in a round it
      then answers the poll as well, or its last report is no more than it ran since it was last seen. */
  predicate Present(s: System, step: Step, ch: Channel) {
    && (step.Round? && PollOne(s.serials, step.clock2, step.poll, ch) >= 0 ==>
          SeenBefore(s, step, ch) <= PollOne(s.serials, step.clock2, step.poll, ch))
    && (Baseline(s, step, ch).Some? ==>
          && s.seen[ch] <= Baseline(s, step, ch).value
          && (step.Round? ==>
                || 0 <= PollOne(s.serials, step.clock2, step.poll, ch)
                || s.f.last[ch] <= Baseline(s, step, ch).value - s.seen[ch]))
  }

  // ---------------------------------------------------------------------------------------------
  // The invariant
  // ---------------------------------------------------------------------------------------------

  /** A report covers at most the runtime since the baseline and `slack`, the runtime before the baseline
      that no report has covered. */
  predicate ForwarderGood(f: Fwd, seen: int, ch: Channel, slack: nat) {
    0 <= f.start[ch] <= seen && 0 <= f.last[ch] <= seen - f.start[ch] + slack
  }

  /** How far the total may be, `base` being what it was at a runtime of zero: until a marked packet has
      been processed it ends at the baseline; once one has been answered the open session started there,
      unless a restart on a later day has already closed it. */
  predicate TotalGood(s: System, ch: Channel, base: int, slack: nat) {
    var a := s.book;
    if s.unanswered then Total(a, ch) <= base + s.seen[ch]
    else if s.f.flag then Total(a, ch) <= base + s.f.start[ch] - slack
    else if a.day == s.f.day then
      && Total(a, ch) - a.open[ch] <= base + s.f.start[ch] - slack
      && a.open[ch] <= s.seen[ch] - s.f.start[ch] + slack
    else s.f.day < a.day && Total(a, ch) <= base + s.seen[ch]
  }

  predicate Good(s: System, ch: Channel, base: int, slack: nat) {
    && BookUpToDay(s.book) && s.book.day <= s.clock && s.f.day <= s.clock
    && (s.unanswered ==> s.f.flag)
    && ForwarderGood(s.f, s.seen[ch], ch, slack)
    && TotalGood(s, ch, base, slack)
  }

  /** A new baseline leaves as slack what the device ran since it was last seen. */
  function SlackAfter(s: System, step: Step, ch: Channel, slack: nat): int {
    if Baseline(s, step, ch).Some? then Baseline(s, step, ch).value - s.seen[ch] else slack
  }

  lemma GoodBound(s: System, ch: Channel, base: int, slack: nat)
    requires Good(s, ch, base, slack)
    ensures Total(s.book, ch) <= base + s.seen[ch]
  {
  }

  /** The forwarder's side of a round: the report is what the device ran since the baseline, or an
      earlier such report. */
  lemma RoundReport(s: System, step: Step, ch: Channel, slack: nat)
    requires step.Round? && Present(s, step, ch) && ForwarderGood(s.f, s.seen[ch], ch, slack)
    ensures
      var f, left := Measured(s, step), SlackAfter(s, step, ch, slack);
      && left >= 0
      && ForwarderGood(Forwarder.Prepared(f), SeenAt(s, step, ch), ch, left)
      && 0 <= Reported(f)[ch] <= SeenAt(s, step, ch) - f.start[ch] + left
      && f.start[ch] == (if step.today == s.f.day then s.f.start[ch]
                         else PollOne(s.serials, step.clock, step.refresh, ch))
      && s.seen[ch] <= SeenAt(s, step, ch)
  {
    var r := PollOne(s.serials, step.clock, step.refresh, ch);
    var p := PollOne(s.serials, step.clock2, step.poll, ch);
    var g := Refreshed(s.f, step.today, PollAll(s.serials, step.clock, step.refresh));
    assert g.start[ch] == (if step.today == s.f.day then s.f.start[ch] else r);
    assert g.start[ch] >= 0;
    var f := Measured(s, step);
    assert f.start[ch] == g.start[ch] && f.now[ch] == p && f.last[ch] == s.f.last[ch];
  }

  lemma ResetTotal(a: Account, today: nat, flag: bool, ch: Channel)
    requires BookUpToDay(a) && a.day <= today
    ensures
      var b := Reset(a, today, flag);
      && BookUpToDay(b) && b.day == (if flag then today else a.day) && Total(b, ch) == Total(a, ch)
      && b.open[ch] == (if flag then 0 else a.open[ch])
  {
    EnteredTotal(a, ch);
    if flag {
      MovedTotal(Entered(a), today, ch);
    }
  }

  lemma EnvelopeTotal(a: Account, today: nat, flag: bool, values: Times, ch: Channel)
    requires BookUpToDay(a) && a.day <= today
    ensures
      var b := EnvelopePut(a, today, flag, values);
      && BookUpToDay(b) && b.day == (if flag then today else a.day)
      && b.open[ch] == (var least := if flag then 0 else a.open[ch]; if values[ch] < least then least else values[ch])
      && Total(b, ch) - b.open[ch] == Total(a, ch) - (if flag then 0 else a.open[ch])
  {
    ResetTotal(a, today, flag, ch);
  }

  lemma RestartTotal(a: Account, today: nat, ch: Channel)
    requires BookUpToDay(a) && a.day <= today
    ensures
      var b := AccountRestart(a, today);
      && BookUpToDay(b) && b.day == today && Total(b, ch) == Total(a, ch)
      && (today == a.day ==> b == a)
  {
    if today != a.day {
      ResetTotal(a, today, true, ch);
    }
  }

  lemma {:induction false} BookRecoveredTotal(a: Account, r: Recovery, clock: nat, ch: Channel)
    requires BookUpToDay(a) && a.day <= clock && InOrder(clock, r.attempts, r.day)
    ensures
      var b := BookRecovered(a, r);
      && BookUpToDay(b) && b.day == r.day && clock <= r.day && Total(b, ch) == Total(a, ch)
      && (r.day == a.day ==> b == a)
    decreases r.attempts
  {
    if r.attempts == [] {
      RestartTotal(a, r.day, ch);
    } else {
      var today := r.attempts[0].today;
      RestartTotal(a, today, ch);
      BookRecoveredTotal(AccountRestart(a, today), r.(attempts := r.attempts[1..]), today, ch);
    }
  }

  /** The total before the packet of a round, seen from the baseline that packet uses. */
  lemma BeforePacket(s: System, step: Step, ch: Channel, base: int, slack: nat)
    requires Good(s, ch, base, slack) && step.Round? && Orderly(s, step) && Present(s, step, ch)
    ensures
      var f, left := Measured(s, step), SlackAfter(s, step, ch, slack);
      var a := s.book;
      && a.day <= step.today && f.day == step.today && left >= 0
      && Total(a, ch) <= base + s.seen[ch]
      && (f.flag && !Owing(s, step) ==> Total(a, ch) <= base + f.start[ch] - left)
      && (!f.flag ==>
            && s.f.day == a.day == step.today && Total(a, ch) - a.open[ch] <= base + f.start[ch] - left
            && a.open[ch] <= s.seen[ch] - f.start[ch] + left)
  {
    RoundReport(s, step, ch, slack);
    GoodBound(s, ch, base, slack);
  }

  lemma GoodDelivered(s: System, step: Step, ch: Channel, base: int, slack: nat)
    requires s.server.month != [] && Good(s, ch, base, slack) && Orderly(s, step) && Present(s, step, ch)
    requires step.Round? && step.outcome.Delivered?
    ensures SlackAfter(s, step, ch, slack) >= 0 && Good(Next(s, step), ch, base, SlackAfter(s, step, ch, slack))
  {
    var f := Measured(s, step);
    RoundReport(s, step, ch, slack);
    BeforePacket(s, step, ch, base, slack);
    PacketRoundTrip(Reported(f), f.flag, ch);
    EnvelopeTotal(s.book, step.today, f.flag, Values(Data(f)), ch);
    assert Next(s, step).seen[ch] == SeenAt(s, step, ch);
  }

  lemma GoodCut(s: System, step: Step, ch: Channel, base: int, slack: nat)
    requires s.server.month != [] && Good(s, ch, base, slack) && Orderly(s, step) && Present(s, step, ch)
    requires step.Round? && step.outcome.Cut?
    ensures SlackAfter(s, step, ch, slack) >= 0 && Good(Next(s, step), ch, base, SlackAfter(s, step, ch, slack))
  {
    var f := Measured(s, step);
    RoundReport(s, step, ch, slack);
    BeforePacket(s, step, ch, base, slack);
    PacketRoundTrip(Reported(f), f.flag, ch);
    ResetTotal(s.book, step.today, f.flag, ch);
    BookRecoveredTotal(Reset(s.book, step.today, f.flag), step.outcome.recovery, step.today, ch);
    assert Next(s, step).seen[ch] == SeenAt(s, step, ch);
  }

  lemma GoodStep(s: System, step: Step, ch: Channel, base: int, slack: nat)
    requires s.server.month != [] && Good(s, ch, base, slack) && Orderly(s, step) && Present(s, step, ch)
    ensures SlackAfter(s, step, ch, slack) >= 0 && Good(Next(s, step), ch, base, SlackAfter(s, step, ch, slack))
  {
    assert Next(s, step).seen[ch] == SeenAt(s, step, ch);
    match step
    case Round(_, _, _, _, _, _, outcome) =>
      if outcome.Lost? {
        RoundReport(s, step, ch, slack);
        BeforePacket(s, step, ch, base, slack);
      } else if outcome.Delivered? {
        GoodDelivered(s, step, ch, base, slack);
      } else {
        GoodCut(s, step, ch, base, slack);
      }
    case ForwarderRestart(_, _, _) => GoodBound(s, ch, base, slack);
    case ServerSave =>
    case ServerRestart(day) => RestartTotal(s.book, day, ch);
    case ServerCrash(r) => BookRecoveredTotal(s.book, r, s.clock, ch);
  }

  // ---------------------------------------------------------------------------------------------
  // The server stays within the book
  // ---------------------------------------------------------------------------------------------

  /** Without crashes it is enough that the server is below the book; with them its tables must be, too. */
  ghost predicate Within(s: System, crashes: bool)
    requires s.server.month != []
  {
    Inv(s.server) && if crashes then Safe(s.server, s.book) else Below(Abs(s.server), s.book)
  }

  predicate Crashes(step: Step) {
    step.ServerCrash? || (step.Round? && step.outcome.Cut?)
  }

  /** No attempt to start is cut off between the two writes that close an earlier day's session. */
  predicate StartsWhole(s: System, step: Step)
    requires s.server.month != []
  {
    && (step.ServerCrash? ==> Unbroken(s.server, CrashIn(Save, step.recovery)))
    && (step.Round? && step.outcome.Cut? ==> Unbroken(s.server, CrashIn(PutOf(s, step), step.outcome.recovery)))
  }

  lemma WithinBound(s: System, crashes: bool, ch: Channel)
    requires s.server.month != [] && Within(s, crashes)
    ensures Total(Abs(s.server), ch) <= Total(s.book, ch)
  {
    if crashes {
      SafeBounds(s.server, s.book, ch);
    } else {
      BelowTotal(Abs(s.server), s.book, ch);
    }
  }

  lemma ServerStep(s: System, op: Op)
    requires Inv(s.server) && Timely(Abs(s.server).day, op)
    ensures Inv(Apply(s.server, op)) && Abs(Apply(s.server, op)) == AccountApply(Abs(s.server), op)
  {
    ApplyRefines(s.server, op);
  }

  lemma BelowStep(s: System, step: Step)
    requires s.server.month != [] && Within(s, false) && !Crashes(step) && Orderly(s, step) && s.book.day <= s.clock
    ensures Within(Next(s, step), false)
  {
    match step
    case Round(_, _, _, _, _, _, outcome) =>
      if outcome.Delivered? {
        BelowDelivered(s, step);
      }
    case ForwarderRestart(_, _, _) =>
    case ServerSave => ServerStep(s, Save);
    case ServerRestart(day) =>
      ServerStep(s, Restart(day));
      BelowRestart(Abs(s.server), s.book, day);
    case ServerCrash(_) =>
  }

  lemma BelowDelivered(s: System, step: Step)
    requires s.server.month != [] && Within(s, false) && Orderly(s, step) && s.book.day <= s.clock
    requires step.Round? && step.outcome.Delivered?
    ensures Within(Next(s, step), false)
  {
    var put := PutOf(s, step);
    ServerStep(s, put);
    BelowPut(Abs(s.server), s.book, put.today, put.flag, put.values);
  }

  lemma SafeRound(s: System, step: Step)
    requires s.server.month != [] && Within(s, true) && step.Round? && Orderly(s, step) && s.book.day <= s.clock
    requires StartsWhole(s, step)
    ensures Within(Next(s, step), true)
  {
    match step.outcome
    case Lost =>
    case Delivered(_) => PacketSafe(s.server, s.book, PutOf(s, step));
    case Cut(r) => PacketCut(s.server, s.book, PutOf(s, step), r.at, r.attempts, r.day);
  }

  lemma SafeStep(s: System, step: Step)
    requires s.server.month != [] && Within(s, true) && Orderly(s, step) && s.book.day <= s.clock
    requires StartsWhole(s, step)
    ensures Within(Next(s, step), true)
  {
    match step
    case Round(_, _, _, _, _, _, _) => SafeRound(s, step);
    case ForwarderRestart(_, _, _) =>
    case ServerSave => HappenSafe(s.server, s.book, Done(Save));
    case ServerRestart(day) => HappenSafe(s.server, s.book, Done(Restart(day)));
    case ServerCrash(r) =>
      EarlierInOrder(s.book.day, s.clock, r.attempts, r.day);
      HappenSafe(s.server, s.book, CrashIn(Save, r));
  }

  // ---------------------------------------------------------------------------------------------
  // Whole runs
  // ---------------------------------------------------------------------------------------------

  function After(s: System, steps: seq<Step>): (s': System)
    requires s.server.month != []
    ensures s'.server.month != []
    decreases steps
  {
    if steps == [] then s else After(Next(s, steps[0]), steps[1..])
  }

  predicate Fair(s: System, steps: seq<Step>, ch: Channel, crashes: bool)
    requires s.server.month != []
    decreases steps
  {
    steps != [] ==>
      && Orderly(s, steps[0]) && Present(s, steps[0], ch) && (Crashes(steps[0]) ==> crashes)
      && StartsWhole(s, steps[0])
      && Fair(Next(s, steps[0]), steps[1..], ch, crashes)
  }

  lemma {:induction false} GoodRun(s: System, steps: seq<Step>, ch: Channel, base: int, slack: nat, crashes: bool)
    returns (left: nat)
    requires s.server.month != [] && Good(s, ch, base, slack) && Within(s, crashes) && Fair(s, steps, ch, crashes)
    ensures Good(After(s, steps), ch, base, left) && Within(After(s, steps), crashes)
    decreases steps
  {
    left := slack;
    if steps != [] {
      GoodStep(s, steps[0], ch, base, slack);
      if crashes {
        SafeStep(s, steps[0]);
      } else {
        BelowStep(s, steps[0]);
      }
      left := GoodRun(Next(s, steps[0]), steps[1..], ch, base, SlackAfter(s, steps[0], ch, slack), crashes);
    }
  }

  /** The system when the forwarder has just read its first baselines. */
  function Begin(serials: Serials, server: Machine, book: Account, clock: int, readings: Readings, today: nat): System {
    System(serials, Fwd(PollAll(serials, clock, readings), Zero(), Zero(), true, today), server, book,
           PollAll(serials, clock, readings), today, false)
  }

  /** Over any run, what the server has recorded on a channel grows by no more than the device's runtime
      since the first baseline, whatever is lost, polled in vain or restarted in between, and, from a server
      whose tables are within the book, wherever it crashes. */
  lemma NeverMoreThanRuntime(s: System, steps: seq<Step>, ch: Channel, crashes: bool)
    requires s.server.month != [] && Within(s, crashes) && s.book.day <= s.clock
    requires s.f.flag && !s.unanswered && s.f.day <= s.clock && s.seen[ch] == s.f.start[ch] >= 0 && s.f.last[ch] == 0
    requires Fair(s, steps, ch, crashes)
    ensures
      var s' := After(s, steps);
      Total(Abs(s'.server), ch) - Total(s.book, ch) <= s'.seen[ch] - s.f.start[ch]
  {
    var base := Total(s.book, ch) - s.f.start[ch];
    assert Good(s, ch, base, 0);
    var left := GoodRun(s, steps, ch, base, 0, crashes);
    GoodBound(After(s, steps), ch, base, left);
    WithinBound(After(s, steps), crashes, ch);
  }

  /** Without crashes, from any server. */
  lemma FromAnyServer(serials: Serials, server: Machine, clock: int, readings: Readings, today: nat,
                      steps: seq<Step>, ch: Channel)
    requires Inv(server) && Current(server).epoch <= today
    requires PollOne(serials, clock, readings, ch) >= 0
    requires Fair(Begin(serials, server, Abs(server), clock, readings, today), steps, ch, false)
    ensures
      var s := After(Begin(serials, server, Abs(server), clock, readings, today), steps);
      Total(Abs(s.server), ch) - Total(Abs(server), ch) <= s.seen[ch] - PollOne(serials, clock, readings, ch)
  {
    assert Below(Abs(server), Abs(server));
    NeverMoreThanRuntime(Begin(serials, server, Abs(server), clock, readings, today), steps, ch, false);
  }

  /** With crashes at any write but between the two that close an earlier day's session, from a new device:
      its seconds never exceed the runtime since the first
      baseline. */
  lemma FromNewDevice(serials: Serials, clock: int, readings: Readings, today: nat, steps: seq<Step>, ch: Channel)
    requires today >= 1 && PollOne(serials, clock, readings, ch) >= 0
    requires Fair(Begin(serials, NewDevice(today), EmptyAccount(today), clock, readings, today), steps, ch, true)
    ensures
      var s := After(Begin(serials, NewDevice(today), EmptyAccount(today), clock, readings, today), steps);
      Total(Abs(s.server), ch) <= s.seen[ch] - PollOne(serials, clock, readings, ch)
  {
    var s := Begin(serials, NewDevice(today), EmptyAccount(today), clock, readings, today);
    BeginsWithin(s, today, ch);
    FromEmptyBook(s, steps, ch);
  }

  lemma BeginsWithin(s: System, today: nat, ch: Channel)
    requires today >= 1 && s.server == NewDevice(today) && s.book == EmptyAccount(today)
    ensures s.server.month != [] && Within(s, true) && Total(s.book, ch) == 0
  {
    FreshDevice(today);
    EmptyTotal(today, ch);
  }

  lemma FromEmptyBook(s: System, steps: seq<Step>, ch: Channel)
    requires s.server.month != [] && Within(s, true) && s.book.day <= s.clock && Total(s.book, ch) == 0
    requires s.f.flag && !s.unanswered && s.f.day <= s.clock && s.seen[ch] == s.f.start[ch] >= 0 && s.f.last[ch] == 0
    requires Fair(s, steps, ch, true)
    ensures Total(Abs(After(s, steps).server), ch) <= After(s, steps).seen[ch] - s.f.start[ch]
  {
    NeverMoreThanRuntime(s, steps, ch, true);
  }

  // ---------------------------------------------------------------------------------------------
  // Why the flagged packet has to be answered, and the device to answer the poll after a refresh
  // ---------------------------------------------------------------------------------------------

  /** The server is up to date with a channel: nothing of the device's runtime is missing. */
  predicate Exact(s: System, ch: Channel, base: int) {
    && Inv(s.server) && BookUpToDay(Abs(s.server)) && Abs(s.server).day <= s.clock && s.f.day <= s.clock
    && s.f.last[ch] >= 0 && Total(Abs(s.server), ch) == base + s.seen[ch]
  }

  /** A delivered round whose packet is marked merges the open session and starts one with what was
      reported, as long as that fits 23 bits. */
  lemma MarkedRound(s: System, step: Step, ch: Channel)
    requires Inv(s.server) && BookUpToDay(Abs(s.server)) && step.Round? && step.outcome.Delivered?
    requires Abs(s.server).day <= step.today && Measured(s, step).flag && 0 <= Reported(Measured(s, step))[ch] < 0x80_0000
    ensures
      var s' := Next(s, step);
      && Inv(s'.server) && BookUpToDay(Abs(s'.server)) && Abs(s'.server).day == step.today
      && Total(Abs(s'.server), ch) == Total(Abs(s.server), ch) + Reported(Measured(s, step))[ch]
      && s'.f == Sent(Forwarder.Prepared(Measured(s, step)), true, step.outcome == Delivered(true))
      && s'.seen[ch] == SeenAt(s, step, ch)
  {
    var f := Measured(s, step);
    PacketRoundTrip(Reported(f), true, ch);
    ServerStep(s, Put(step.today, step.second, true, Values(Data(f))));
    ResetTotal(Abs(s.server), step.today, true, ch);
  }

  /** After a delivered round that read a new baseline on an up-to-date channel, the bound holds if and
      only if the device answered the poll or its stale report is no more than what it ran since it was
      last seen: refreshing the baseline leaves that report in place. */
  lemma RefreshOvercounts(s: System, step: Step, ch: Channel, base: int)
    requires Exact(s, ch, base) && step.Round? && step.outcome == Delivered(true)
    requires s.clock <= step.today && step.today != s.f.day
    requires s.f.last[ch] < 0x80_0000 && 0 <= s.seen[ch]
    requires s.seen[ch] <= PollOne(s.serials, step.clock, step.refresh, ch)
    requires SeenAt(s, step, ch) >= SeenBefore(s, step, ch)
    requires PollOne(s.serials, step.clock2, step.poll, ch)
             < PollOne(s.serials, step.clock, step.refresh, ch) + 0x80_0000
    ensures Total(Abs(Next(s, step).server), ch) <= base + Next(s, step).seen[ch]
       <==> PollOne(s.serials, step.clock2, step.poll, ch) >= 0
            || s.f.last[ch] <= PollOne(s.serials, step.clock, step.refresh, ch) - s.seen[ch]
  {
    var f := Measured(s, step);
    var p := PollOne(s.serials, step.clock2, step.poll, ch);
    var r := PollOne(s.serials, step.clock, step.refresh, ch);
    assert f.start[ch] == r && f.now[ch] == p && f.flag;
    assert Reported(f)[ch] == if p < 0 then s.f.last[ch] else p - r;
    MarkedRound(s, step, ch);
  }

  /** The forwarder with the flag up on its day, and a server that has counted exactly up to the baseline. */
  predicate AtBaseline(s: System, ch: Channel, base: int) {
    && Inv(s.server) && BookUpToDay(Abs(s.server)) && Abs(s.server).day <= s.clock && s.f.day == s.clock
    && s.f.flag && 0 <= s.f.start[ch] && Total(Abs(s.server), ch) == base + s.f.start[ch]
  }

  /** The device answers the poll of a round on the forwarder's day, less than 2^23 seconds after the
      baseline. */
  predicate Polls(s: System, step: Step, ch: Channel) {
    && step.Round? && step.today == s.f.day
    && s.f.start[ch] <= PollOne(s.serials, step.clock2, step.poll, ch) < s.f.start[ch] + 0x80_0000
  }

  lemma PolledReport(s: System, step: Step, ch: Channel)
    requires Polls(s, step, ch) && 0 <= s.f.start[ch]
    ensures
      var f, p := Measured(s, step), PollOne(s.serials, step.clock2, step.poll, ch);
      Reported(f)[ch] == p - s.f.start[ch] && f.start[ch] == s.f.start[ch] && f.flag == s.f.flag && f.day == s.f.day
      && SeenAt(s, step, ch) == p
  {
    var f := Measured(s, step);
    assert f.start[ch] == s.f.start[ch] && f.now[ch] == PollOne(s.serials, step.clock2, step.poll, ch);
  }

  /** A marked packet whose reply is lost is sent again with the flag still up. After the next round that
      arrives, the bound holds if and only if the first packet reported nothing. */
  lemma LostReplyCountsTwice(s: System, first: Step, again: Step, ch: Channel, base: int)
    requires AtBaseline(s, ch, base) && Polls(s, first, ch) && first.outcome == Delivered(false)
    requires Polls(Next(s, first), again, ch) && again.outcome.Delivered?
    ensures
      var s' := Next(Next(s, first), again);
      Total(Abs(s'.server), ch) <= base + s'.seen[ch]
      <==> PollOne(s.serials, first.clock2, first.poll, ch) == s.f.start[ch]
  {
    PolledReport(s, first, ch);
    MarkedRound(s, first, ch);
    var s1 := Next(s, first);
    assert s1.f.flag && s1.f.start[ch] == s.f.start[ch];
    PolledReport(s1, again, ch);
    MarkedRound(s1, again, ch);
  }

  // ---------------------------------------------------------------------------------------------
  // Runs in which seconds are counted twice
  // ---------------------------------------------------------------------------------------------

  function All(n: int): Times { seq(CHANNELS, _ => n) }

  function Devices(runtime: int): Readings { seq(CHANNELS, _ => Some(runtime)) }

  function NoAnswer(): Readings { seq(CHANNELS, _ => None) }

  /** Day 10: the devices started at 1000 seconds, show 1500, and the server has the 500. */
  function Evening(): System {
    var server := Packet(NewDevice(10), 10, 0, false, All(500));
    System(All(7), Fwd(All(1000), All(1500), All(500), false, 10), server, Abs(server), All(1500), 10, false)
  }

  /** Day 11: the devices are there for the baseline, but not for the poll right after it. */
  function Midnight(): Step {
    Round(11, 0, 1500, Devices(1500), 1500, NoAnswer(), Delivered(true))
  }

  /** The devices ran 500 seconds, and the server records 1000. */
  lemma RefreshOvercountsOnce(ch: Channel)
    requires ch > 0
    ensures Exact(Evening(), ch, -1000)
    ensures Total(Abs(Next(Evening(), Midnight()).server), ch) == 1000
    ensures Next(Evening(), Midnight()).seen[ch] == 1500
  {
    EveningExact(ch);
    MidnightReport(ch);
    MarkedRound(Evening(), Midnight(), ch);
  }

  /** The old report is sent again. */
  lemma MidnightReport(ch: Channel)
    requires ch > 0
    ensures Measured(Evening(), Midnight()).flag && Reported(Measured(Evening(), Midnight()))[ch] == 500
    ensures SeenAt(Evening(), Midnight(), ch) == 1500
  {
    var s, step := Evening(), Midnight();
    var g := Refreshed(s.f, 11, PollAll(s.serials, 1500, step.refresh));
    assert g.start[ch] == 1500 && g.last[ch] == 500 && g.flag;
    var f := Polled(g, s.serials, PollAll(s.serials, 1500, step.poll));
    assert f.start[ch] == 1500 && f.now[ch] == -1 && f.last[ch] == 500;
    assert Measured(s, step) == f;
  }

  lemma EveningExact(ch: Channel)
    ensures Exact(Evening(), ch, -1000)
  {
    var m, a := NewDevice(10), EmptyAccount(10);
    FreshDevice(10);
    InvPacket(m, 10, 0, false, All(500));
    PutRefines(m, 10, 0, false, All(500));
    EmptyTotal(10, ch);
    assert Abs(Evening().server) == AccountPut(a, 10, false, All(500));
  }

  /** Day 10: a new device, and a forwarder that has just read its first baselines. */
  function Morning(): System {
    Begin(All(7), NewDevice(10), EmptyAccount(10), 1000, Devices(1000), 10)
  }

  /** The devices have run 500 seconds, and the reply to the marked packet is lost. */
  function Unheard(): Step {
    Round(10, 0, 1000, Devices(1000), 1500, Devices(1500), Delivered(false))
  }

  function Heard(): Step {
    Round(10, 0, 1500, Devices(1500), 1500, Devices(1500), Delivered(true))
  }

  lemma MorningReady(ch: Channel)
    requires ch > 0
    ensures AtBaseline(Morning(), ch, -1000) && Morning().f.start[ch] == 1000
    ensures Polls(Morning(), Unheard(), ch)
  {
    FreshDevice(10);
    EmptyTotal(10, ch);
    MorningPolls(ch);
  }

  lemma MorningPolls(ch: Channel)
    requires ch > 0
    ensures Morning().f.start[ch] == 1000 && Polls(Morning(), Unheard(), ch)
  {
  }

  /** The packet sent again makes the server record more than the devices ran. */
  lemma LostReplyOnce(ch: Channel)
    requires ch > 0
    ensures AtBaseline(Morning(), ch, -1000)
    ensures
      var s := Next(Next(Morning(), Unheard()), Heard());
      s.seen[ch] == 1500 && Total(Abs(s.server), ch) > -1000 + s.seen[ch]
  {
    MorningReady(ch);
    var s := Morning();
    PolledReport(s, Unheard(), ch);
    MarkedRound(s, Unheard(), ch);
    var s1 := Next(s, Unheard());
    assert s1.f.flag && s1.f.start[ch] == 1000;
    PolledReport(s1, Heard(), ch);
    MarkedRound(s1, Heard(), ch);
    LostReplyCountsTwice(s, Unheard(), Heard(), ch, -1000);
  }
}
