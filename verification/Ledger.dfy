/** What one device's runtime ledger (esp8266_decoder/source/MachineTime.cpp) holds in memory and in
    its database, and what every operation makes of it. */
module Ledger {
  import opened Options
  import opened Calendar

  const CHANNELS: int := 19

  type Channel = c: int | 0 <= c < CHANNELS

  /** One number of seconds per channel. */
  type Times = t: seq<int> | |t| == CHANNELS witness seq(CHANNELS, _ => 0)

  type Flags = f: seq<bool> | |f| == CHANNELS witness seq(CHANNELS, _ => false)

  /** One list of seconds of the day per channel. */
  type EventLists = e: seq<seq<int>> | |e| == CHANNELS witness seq(CHANNELS, _ => [])

  /** A day kept in memory. */
  datatype Day = Day(epoch: nat, times: Times, starts: EventLists, stops: EventLists)

  /** The open session: what has been received since the last reset. */
  datatype Session = Session(times: Times, working: Flags, pending: Times)

  datatype EventKind = Start | Stop

  datatype EventRow = EventRow(day: nat, channel: Channel, kind: EventKind, second: int)

  datatype SessionRow = SessionRow(day: nat, times: Times, working: nat)

  /** The rows of one device in the three tables; event rows are in insertion order. */
  datatype Tables = Tables(history: map<nat, Times>, events: seq<EventRow>, session: Option<SessionRow>)

  datatype Machine = Machine(month: seq<Day>, oldMonth: seq<Day>, session: Session, tables: Tables)

  function Zero(): Times { seq(CHANNELS, _ => 0) }

  function NoFlags(): Flags { seq(CHANNELS, _ => false) }

  function NoEvents(): EventLists { seq(CHANNELS, _ => []) }

  function Plus(a: Times, b: Times): Times {
    seq(CHANNELS, i requires 0 <= i < CHANNELS => a[i] + b[i])
  }

  function EmptyDay(epoch: nat): Day {
    Day(epoch, Zero(), NoEvents(), NoEvents())
  }

  function NoSession(): Session { Session(Zero(), NoFlags(), Zero()) }

  // ---------------------------------------------------------------------------------------------
  // The working bit mask of the session row
  // ---------------------------------------------------------------------------------------------

  function Mask(flags: seq<bool>): nat {
    if flags == [] then 0 else (if flags[0] then 1 else 0) + 2 * Mask(flags[1..])
  }

  /** `(mask >> i) & 1`. */
  predicate Bit(mask: nat, i: nat) {
    if i == 0 then mask % 2 == 1 else Bit(mask / 2, i - 1)
  }

  function Unmask(mask: nat): Flags {
    seq(CHANNELS, i requires 0 <= i < CHANNELS => Bit(mask, i))
  }

  lemma {:induction false} MaskBit(flags: seq<bool>, i: nat)
    requires i < |flags|
    ensures Bit(Mask(flags), i) == flags[i]
  {
    if i > 0 {
      assert Mask(flags) / 2 == Mask(flags[1..]);
      MaskBit(flags[1..], i - 1);
    }
  }

  lemma MaskRoundTrip(flags: Flags)
    ensures Unmask(Mask(flags)) == flags
  {
    forall i | 0 <= i < CHANNELS
      ensures Unmask(Mask(flags))[i] == flags[i]
    {
      MaskBit(flags, i);
    }
  }

  // ---------------------------------------------------------------------------------------------
  // The statements of the database layer
  // ---------------------------------------------------------------------------------------------

  /** `db_save_history_day`. */
  function SaveHistory(t: Tables, d: Day): Tables {
    t.(history := t.history[d.epoch := d.times])
  }

  /** `db_add_history_times`: the UPSERT that adds. */
  function AddHistory(t: Tables, day: nat, times: Times): Tables {
    t.(history := t.history[day := if day in t.history then Plus(t.history[day], times) else times])
  }

  /** `db_save_events_day`: delete the day's rows, insert the current ones. */
  function SaveEvents(t: Tables, d: Day): Tables {
    t.(events := WithoutDay(t.events, d.epoch) + RowsUpTo(d, CHANNELS))
  }

  /** `db_save_session`, anchored at the given day. */
  function SaveSession(t: Tables, day: nat, s: Session): Tables {
    t.(session := Some(SessionRow(day, s.times, Mask(s.working))))
  }

  /** The transaction of `new_day` and `new_month`. */
  function SaveDay(t: Tables, d: Day): Tables {
    SaveEvents(SaveHistory(t, d), d)
  }

  function WithoutDay(rows: seq<EventRow>, day: nat): seq<EventRow> {
    if rows == [] then []
    else
      var rest := WithoutDay(rows[..|rows| - 1], day);
      if rows[|rows| - 1].day == day then rest else rest + [rows[|rows| - 1]]
  }

  /** `DELETE ... WHERE day_epoch < threshold`. */
  function FromDay(rows: seq<EventRow>, threshold: nat): seq<EventRow> {
    if rows == [] then []
    else
      var rest := FromDay(rows[..|rows| - 1], threshold);
      if rows[|rows| - 1].day < threshold then rest else rest + [rows[|rows| - 1]]
  }

  function TrimEvents(t: Tables, threshold: nat): Tables {
    t.(events := FromDay(t.events, threshold))
  }

  function Rows(day: nat, channel: Channel, kind: EventKind, seconds: seq<int>): seq<EventRow> {
    seq(|seconds|, i requires 0 <= i < |seconds| => EventRow(day, channel, kind, seconds[i]))
  }

  /** The rows of a day for the channels below `n`. */
  function RowsUpTo(d: Day, n: nat): seq<EventRow>
    requires n <= CHANNELS
  {
    if n == 0 then []
    else RowsUpTo(d, n - 1) + Rows(d.epoch, n - 1, Start, d.starts[n - 1]) + Rows(d.epoch, n - 1, Stop, d.stops[n - 1])
  }

  // ---------------------------------------------------------------------------------------------
  // The operations
  // ---------------------------------------------------------------------------------------------

  function LastDay(days: seq<Day>): Day
    requires days != []
  {
    days[|days| - 1]
  }

  /** All days in memory, oldest first. */
  function Days(m: Machine): seq<Day> {
    m.oldMonth + m.month
  }

  /** The session merged into the current day. */
  function Merged(m: Machine): Machine
    requires m.month != []
  {
    var d := LastDay(m.month);
    m.(month := m.month[|m.month| - 1 := d.(times := Plus(d.times, m.session.times))],
       session := m.session.(times := Zero()))
  }

  /** The durable states `new_session` passes through, one per committed write. */
  function NewSessionCommits(m: Machine, today: nat): seq<Tables>
    requires m.month != []
  {
    var m1 := Merged(m);
    var d := LastDay(m1.month);
    var zeroed := SaveSession(m.tables, d.epoch, m1.session);
    if d.epoch == today then [zeroed]
    else if MonthOf(today) != MonthOf(d.epoch) && m.oldMonth != [] then
      [zeroed, SaveDay(zeroed, d), TrimEvents(SaveDay(zeroed, d), m.oldMonth[0].epoch)]
    else [zeroed, SaveDay(zeroed, d)]
  }

  /** `new_session`: merge, zero the session row, and on a new day or month roll over. */
  function NewSession(m: Machine, today: nat): Machine
    requires m.month != []
  {
    var m1 := Merged(m);
    var d := LastDay(m1.month);
    var commits := NewSessionCommits(m, today);
    var m2 := m1.(tables := commits[|commits| - 1]);
    if d.epoch == today then m2
    else if MonthOf(today) != MonthOf(d.epoch) then m2.(month := [EmptyDay(today)], oldMonth := m1.month)
    else m2.(month := m1.month + [EmptyDay(today)])
  }

  /** What one packet does to one channel: hysteresis state and the event it records, if any. */
  datatype ChannelStep = ChannelStep(working: bool, pending: int, event: Option<EventKind>)

  function StepChannel(working: bool, pending: int, before: int, now: int): ChannelStep {
    if now > before && !working then
      if pending + 1 >= 3 then ChannelStep(true, 0, Some(Start)) else ChannelStep(working, pending + 1, None)
    else if now == before && working then
      if pending + 1 >= 3 then ChannelStep(false, 0, Some(Stop)) else ChannelStep(working, pending + 1, None)
    else if (now > before && working) || (now == before && !working) then ChannelStep(working, 0, None)
    else ChannelStep(working, pending, None)
  }

  function StepAt(s: Session, values: Times, ch: Channel): ChannelStep {
    StepChannel(s.working[ch], s.pending[ch], s.times[ch], values[ch])
  }

  /** The list with the second appended when the step recorded an event of this kind. */
  function Recorded(list: seq<int>, step: ChannelStep, kind: EventKind, second: int): seq<int> {
    if step.event == Some(kind) then list + [second] else list
  }

  function RecordAll(lists: EventLists, s: Session, values: Times, kind: EventKind, second: int): EventLists {
    seq(CHANNELS, i requires 0 <= i < CHANNELS => Recorded(lists[i], StepAt(s, values, i), kind, second))
  }

  function StepAll(s: Session, values: Times): Session {
    Session(values,
      seq(CHANNELS, i requires 0 <= i < CHANNELS => StepAt(s, values, i).working),
      seq(CHANNELS, i requires 0 <= i < CHANNELS => StepAt(s, values, i).pending))
  }

  /** The channel loop of `set`: every channel takes its own step. */
  function Receive(m: Machine, second: int, values: Times): Machine
    requires m.month != []
  {
    var d := LastDay(m.month);
    var d' := d.(starts := RecordAll(d.starts, m.session, values, Start, second),
                 stops := RecordAll(d.stops, m.session, values, Stop, second));
    m.(month := m.month[|m.month| - 1 := d'], session := StepAll(m.session, values))
  }

  /** `set` once the packet has been decrypted: `flag` is slot 11, `values` the channel slots. */
  function Packet(m: Machine, today: nat, second: int, flag: bool, values: Times): Machine
    requires m.month != []
  {
    Receive(if flag then NewSession(m, today) else m, second, values)
  }

  /** `update_today`: two commits. */
  function SaveTodayCommits(m: Machine): seq<Tables>
    requires m.month != []
  {
    var t := SaveHistory(m.tables, LastDay(m.month));
    [t, SaveSession(t, LastDay(m.month).epoch, m.session)]
  }

  function SaveToday(m: Machine): Machine
    requires m.month != []
  {
    m.(tables := SaveTodayCommits(m)[1])
  }

  /** The destructor: history, session and events of the current day in one transaction. */
  function Shutdown(m: Machine): Tables
    requires m.month != []
  {
    var d := LastDay(m.month);
    SaveEvents(SaveSession(SaveHistory(m.tables, d), d.epoch, m.session), d)
  }

  // ---------------------------------------------------------------------------------------------
  // Loading (the constructor)
  // ---------------------------------------------------------------------------------------------

  function Select(rows: seq<EventRow>, day: nat, channel: Channel, kind: EventKind): seq<int> {
    if rows == [] then []
    else
      var r := rows[|rows| - 1];
      var rest := Select(rows[..|rows| - 1], day, channel, kind);
      if r.day == day && r.channel == channel && r.kind == kind then rest + [r.second] else rest
  }

  function Lists(rows: seq<EventRow>, day: nat, kind: EventKind): EventLists {
    seq(CHANNELS, ch requires 0 <= ch < CHANNELS => Select(rows, day, ch, kind))
  }

  /** A day as the tables have it. */
  function LoadDay(t: Tables, day: nat): Day {
    Day(day, if day in t.history then t.history[day] else Zero(),
        Lists(t.events, day, Start), Lists(t.events, day, Stop))
  }

  /** The recorded days below `n` of one month, ascending. */
  function LoadMonth(t: Tables, month: int, n: nat): seq<Day> {
    if n == 0 then []
    else
      LoadMonth(t, month, n - 1)
      + if n - 1 in t.history && MonthOf(n - 1) == month then [LoadDay(t, n - 1)] else []
  }

  predicate InWindow(day: nat, today: nat) {
    MonthOf(day) == MonthOf(today) || MonthOf(day) == MonthOf(today) - 1
  }

  /** Rows outside the two-month window are deleted at startup. */
  function WindowRows(rows: seq<EventRow>, today: nat): seq<EventRow>
  {
    if rows == [] then []
    else
      var r := rows[|rows| - 1];
      var rest := WindowRows(rows[..|rows| - 1], today);
      if InWindow(r.day, today) then rest + [r] else rest
  }

  /** The session row is of another day than the one the device starts on. */
  predicate Closes(t: Tables, today: nat) {
    t.session.Some? && 0 < t.session.value.day && t.session.value.day != today
  }

  /** Closes a session row of an earlier day into that day. */
  function CloseSession(t: Tables, today: nat): Tables {
    if Closes(t, today)
    then AddHistory(t, t.session.value.day, t.session.value.times)
    else t
  }

  /** What a session row of today restores; pending counts start again. */
  function RestoredSession(t: Tables, today: nat): Session {
    if t.session.Some? && t.session.value.day == today
    then Session(t.session.value.times, Unmask(t.session.value.working), Zero())
    else NoSession()
  }

  /** The constructor on a given day. */
  function Startup(t: Tables, today: nat): Machine
  {
    var t1 := CloseSession(t.(events := WindowRows(t.events, today)), today);
    var s := RestoredSession(t, today);
    Machine(LoadMonth(t1, MonthOf(today), today) + [LoadDay(t1, today)],
            LoadMonth(t1, MonthOf(today) - 1, today),
            s, SaveSession(t1, today, s))
  }

  /** What the tables of a device look like when the clock has never run backwards. */
  predicate TablesOk(t: Tables, today: nat) {
    && (forall day :: day in t.history ==> 1 <= day <= today)
    && (forall r :: r in t.events ==> r.day in t.history)
    && (t.session.Some? ==> 1 <= t.session.value.day <= today)
  }
}
