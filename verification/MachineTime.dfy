/** `class MachineTime` of esp8266_decoder/source/MachineTime.cpp: two months of days, the open session and
    the database, edited in place. Every method is proved against the operation of the same name in
    `Ledger`. */
module MachineTime {
  import opened Calendar
  import opened Options
  import opened Ledger
  import opened LedgerTables
  import opened LedgerInvariant
  import opened LedgerRuns
  import opened LedgerBook
  import opened LedgerLoading
  import opened LedgerStartup
  import opened Packets

  datatype HistoryRow = HistoryRow(day: nat, times: Times)

  function HistoryOf(rows: seq<HistoryRow>): map<nat, Times> {
    if rows == [] then map[]
    else HistoryOf(rows[..|rows| - 1])[rows[|rows| - 1].day := rows[|rows| - 1].times]
  }

  /** The rows of one device in the database. A statement outside a transaction is durable at once;
      the statements of a transaction become durable together. */
  class Database {
    var tables: Tables
    var inTransaction: bool
    /** The durable states reached so far, in order. */
    ghost var commits: seq<Tables>

    constructor (tables: Tables)
      ensures this.tables == tables && !inTransaction && commits == []
    {
      this.tables := tables;
      inTransaction := false;
      commits := [];
    }

    /** The durable states after a statement that has left the tables as they are now. */
    ghost function Extended(before: seq<Tables>): seq<Tables>
      reads this
    {
      if inTransaction then before else before + [tables]
    }

    method Begin()
      requires !inTransaction
      modifies this
      ensures inTransaction && tables == old(tables) && commits == old(commits)
    {
      inTransaction := true;
    }

    method Commit()
      requires inTransaction
      modifies this
      ensures !inTransaction && tables == old(tables) && commits == old(commits) + [tables]
    {
      inTransaction := false;
      commits := commits + [tables];
    }

    method SaveHistoryDay(d: Day)
      modifies this
      ensures tables == SaveHistory(old(tables), d)
      ensures inTransaction == old(inTransaction) && commits == Extended(old(commits))
    {
      tables := tables.(history := tables.history[d.epoch := d.times]);
      commits := Extended(commits);
    }

    method AddHistoryTimes(day: nat, add: Times)
      modifies this
      ensures tables == AddHistory(old(tables), day, add)
      ensures inTransaction == old(inTransaction) && commits == Extended(old(commits))
    {
      if day in tables.history {
        tables := tables.(history := tables.history[day := Plus(tables.history[day], add)]);
      } else {
        tables := tables.(history := tables.history[day := add]);
      }
      commits := Extended(commits);
    }

    method InsertEvent(row: EventRow)
      requires inTransaction
      modifies this
      ensures tables == old(tables).(events := old(tables).events + [row])
      ensures inTransaction && commits == old(commits)
    {
      tables := tables.(events := tables.events + [row]);
    }

    method InsertEvents(day: nat, ch: Channel, kind: EventKind, seconds: seq<int>)
      requires inTransaction
      modifies this
      ensures tables == old(tables).(events := old(tables).events + Rows(day, ch, kind, seconds))
      ensures inTransaction && commits == old(commits)
    {
      ghost var before := tables;
      for i := 0 to |seconds|
        invariant tables == before.(events := before.events + Rows(day, ch, kind, seconds)[..i])
        invariant inTransaction && commits == old(commits)
      {
        InsertEvent(EventRow(day, ch, kind, seconds[i]));
        assert Rows(day, ch, kind, seconds)[..i + 1]
            == Rows(day, ch, kind, seconds)[..i] + [EventRow(day, ch, kind, seconds[i])];
      }
    }

    /** Replaces the day's event rows; only called inside a transaction. */
    method SaveEventsDay(d: Day)
      requires inTransaction
      modifies this
      ensures tables == SaveEvents(old(tables), d)
      ensures inTransaction && commits == old(commits)
    {
      ghost var rest := WithoutDay(tables.events, d.epoch);
      tables := tables.(events := WithoutDay(tables.events, d.epoch));
      for ch := 0 to CHANNELS
        invariant tables == old(tables).(events := rest + RowsUpTo(d, ch))
        invariant inTransaction && commits == old(commits)
      {
        InsertEvents(d.epoch, ch, Start, d.starts[ch]);
        InsertEvents(d.epoch, ch, Stop, d.stops[ch]);
        assert rest + RowsUpTo(d, ch) + Rows(d.epoch, ch, Start, d.starts[ch]) + Rows(d.epoch, ch, Stop, d.stops[ch])
            == rest + RowsUpTo(d, ch + 1);
      }
    }

    method DeleteEventsBefore(threshold: nat)
      modifies this
      ensures tables == TrimEvents(old(tables), threshold)
      ensures inTransaction == old(inTransaction) && commits == Extended(old(commits))
    {
      tables := tables.(events := FromDay(tables.events, threshold));
      commits := Extended(commits);
    }

    method DeleteEventsOf(day: nat)
      modifies this
      ensures tables == old(tables).(events := WithoutDay(old(tables).events, day))
      ensures inTransaction == old(inTransaction) && commits == Extended(old(commits))
    {
      tables := tables.(events := WithoutDay(tables.events, day));
      commits := Extended(commits);
    }

    method ReplaceSession(row: SessionRow)
      modifies this
      ensures tables == old(tables).(session := Some(row))
      ensures inTransaction == old(inTransaction) && commits == Extended(old(commits))
    {
      tables := tables.(session := Some(row));
      commits := Extended(commits);
    }

    /** `SELECT ... FROM channel_history ... ORDER BY day_epoch ASC`. */
    method SelectHistory() returns (rows: seq<HistoryRow>)
      ensures HistoryOf(rows) == tables.history
      ensures forall i, j :: 0 <= i < j < |rows| ==> rows[i].day < rows[j].day
    {
      rows := [];
      var done, left := {}, tables.history.Keys;
      while left != {}
        invariant left !! done && left + done == tables.history.Keys
        invariant HistoryOf(rows) == map day | day in done :: tables.history[day]
        invariant forall i :: 0 <= i < |rows| ==> rows[i].day in done
        invariant forall d, k :: d in done && k in left ==> d < k
        invariant forall i, j :: 0 <= i < j < |rows| ==> rows[i].day < rows[j].day
        decreases left
      {
        var day := Least(left);
        var row := HistoryRow(day, tables.history[day]);
        HistoryAppend(rows, row);
        rows, done, left := rows + [row], done + {day}, left - {day};
      }
    }
  }

  lemma HistoryAppend(rows: seq<HistoryRow>, row: HistoryRow)
    ensures HistoryOf(rows + [row]) == HistoryOf(rows)[row.day := row.times]
  {
    assert (rows + [row])[..|rows|] == rows;
  }

  method Least(s: set<nat>) returns (least: nat)
    requires s != {}
    ensures least in s && forall k :: k in s ==> least <= k
  {
    least :| least in s;
    var rest := s - {least};
    while rest != {}
      invariant least in s && rest <= s && least !in rest
      invariant forall k :: k in s && k !in rest ==> least <= k
      decreases rest
    {
      var k :| k in rest;
      rest := rest - {k};
      if k < least {
        least := k;
      }
    }
  }

  // ---------------------------------------------------------------------------------------------
  // The mask loop
  // ---------------------------------------------------------------------------------------------

  function Pow2(n: nat): nat {
    if n == 0 then 1 else 2 * Pow2(n - 1)
  }

  lemma {:induction false} MaskAppend(flags: seq<bool>, flag: bool)
    ensures Mask(flags + [flag]) == Mask(flags) + if flag then Pow2(|flags|) else 0
  {
    if flags == [] {
      assert (flags + [flag])[1..] == [];
    } else {
      assert (flags + [flag])[1..] == flags[1..] + [flag];
      MaskAppend(flags[1..], flag);
    }
  }

  datatype Reply = NotFound | DayList(epochs: seq<nat>) | DayInfo(times: Times, working: Flags)

  class MachineTime {
    var month: seq<Day>
    var oldMonth: seq<Day>
    const sessionTimes: array<int>
    const working: array<bool>
    const pending: array<int>
    const db: Database

    ghost predicate Valid()
      reads db
    {
      && sessionTimes.Length == CHANNELS && working.Length == CHANNELS && pending.Length == CHANNELS
      && sessionTimes != pending
      && !db.inTransaction
    }

    ghost function State(): Machine
      requires Valid()
      reads this, db, sessionTimes, working, pending
    {
      Machine(month, oldMonth, Session(sessionTimes[..], working[..], pending[..]), db.tables)
    }

    ghost function Repr(): set<object> {
      {this, db, sessionTimes, working, pending}
    }

    /** The constructor on a given local day. */
    constructor (db: Database, today: nat)
      requires !db.inTransaction && TablesOk(db.tables, today) && today >= 1
      modifies db
      ensures Valid() && this.db == db && fresh(Repr() - {db})
      ensures State() == Startup(old(db.tables), today)
      ensures db.commits == old(db.commits) + StartupCommits(old(db.tables), today)
    {
      this.db := db;
      sessionTimes := new int[CHANNELS](_ => 0);
      working := new bool[CHANNELS](_ => false);
      pending := new int[CHANNELS](_ => 0);
      month, oldMonth := [], [];
      new;
      assert sessionTimes[..] == Zero() && pending[..] == Zero() && working[..] == NoFlags();
      Restore(today);
    }

    /** What the constructor does with the database. */
    method Restore(today: nat)
      requires Valid() && TablesOk(db.tables, today) && today >= 1 && month == [] && oldMonth == []
      requires sessionTimes[..] == Zero() && working[..] == NoFlags() && pending[..] == Zero()
      modifies this, db, sessionTimes, working
      ensures Valid() && State() == Startup(old(db.tables), today)
      ensures db.commits == old(db.commits) + StartupCommits(old(db.tables), today)
    {
      Load(today);
      SaveSessionRow();
    }

    /** Reads the three tables. */
    method Load(today: nat)
      requires Valid() && TablesOk(db.tables, today) && month == [] && oldMonth == []
      requires sessionTimes[..] == Zero() && working[..] == NoFlags() && pending[..] == Zero()
      modifies this, db, sessionTimes, working
      ensures Valid() && month != [] && LastDay(month).epoch == today
      ensures
        var s := Session(sessionTimes[..], working[..], pending[..]);
        && Startup(old(db.tables), today) == Machine(month, oldMonth, s, SaveSession(db.tables, today, s))
        && old(db.commits) + StartupCommits(old(db.tables), today)
           == db.commits + [SaveSession(db.tables, today, s)]
    {
      ghost var t := db.tables;
      LoadRows(today);
      Started(t, today, month, oldMonth);
    }

    /** Days and events, then the session, then today on top. */
    method LoadRows(today: nat)
      requires Valid() && TablesOk(db.tables, today) && month == [] && oldMonth == []
      requires sessionTimes[..] == Zero() && working[..] == NoFlags() && pending[..] == Zero()
      modifies this, db, sessionTimes, working
      ensures Valid() && db.tables == Prepared(old(db.tables), today)
      ensures Session(sessionTimes[..], working[..], pending[..]) == RestoredSession(old(db.tables), today)
      ensures month == LoadMonth(db.tables, MonthOf(today), today) + [LoadDay(db.tables, today)]
      ensures oldMonth == LoadMonth(db.tables, MonthOf(today) - 1, today)
      ensures db.commits == old(db.commits) + Deletions(old(db.tables), StaleDays(old(db.tables).events, today))
                            + if Closes(old(db.tables), today) then [db.tables] else []
    {
      ghost var t := db.tables;
      LoadTables(today);
      RestoreSession(today);
      PreparedOk(t, today);
      PushToday(today);
    }

    /** The days of the two months and their events. */
    method LoadTables(today: nat)
      requires Valid() && TablesOk(db.tables, today) && month == [] && oldMonth == []
      modifies this, db
      ensures Valid() && db.tables == old(db.tables).(events := WindowRows(old(db.tables).events, today))
      ensures TablesOk(db.tables, today)
      ensures Reads(month, db.tables, MonthOf(today)) && Reads(oldMonth, db.tables, MonthOf(today) - 1)
      ensures db.commits == old(db.commits) + Deletions(old(db.tables), StaleDays(old(db.tables).events, today))
    {
      ghost var t := db.tables;
      LoadHistory(today);
      LoadEvents(today);
      WindowReads(month, t, today, MonthOf(today));
      WindowReads(oldMonth, t, today, MonthOf(today) - 1);
      FilteredRows(t.events, today);
    }

    /** Makes sure that today is on top of the month. */
    method PushToday(today: nat)
      requires Valid() && TablesOk(db.tables, today)
      requires Reads(month, db.tables, MonthOf(today)) && Reads(oldMonth, db.tables, MonthOf(today) - 1)
      modifies this`month
      ensures month == LoadMonth(db.tables, MonthOf(today), today) + [LoadDay(db.tables, today)]
      ensures oldMonth == LoadMonth(db.tables, MonthOf(today) - 1, today)
    {
      LoadedOldMonth(oldMonth, db.tables, today);
      LoadedMonth(month, db.tables, today);
      if month == [] || month[|month| - 1].epoch != today {
        month := month + [EmptyDay(today)];
      }
    }

    /** `find_or_create_day` on one of the two lists. */
    method FindOrCreateDay(days: seq<Day>, epoch: nat) returns (days': seq<Day>, at: nat)
      requires Ascending(days)
      ensures Found(days, epoch, days', at)
    {
      for i := 0 to |days|
        invariant forall k :: 0 <= k < i ==> days[k].epoch != epoch
      {
        if days[i].epoch == epoch {
          OnlyDay(days, i);
          return days, i;
        }
      }
      at := 0;
      while at < |days| && days[at].epoch < epoch
        invariant at <= |days|
        invariant forall k :: 0 <= k < at ==> days[k].epoch < epoch
      {
        at := at + 1;
      }
      days' := days[..at] + [EmptyDay(epoch)] + days[at..];
      InsertedDay(days, at, epoch);
    }

    /** Stores one history row into the list of its month. */
    method StoreRow(days: seq<Day>, row: HistoryRow, ghost history: map<nat, Times>) returns (result: seq<Day>)
      requires Reads(days, Tables(history, [], None), MonthOf(row.day))
      ensures Reads(result, Tables(history[row.day := row.times], [], None), MonthOf(row.day))
    {
      ghost var t, t' := Tables(history, [], None), Tables(history[row.day := row.times], [], None);
      NextHistoryRow(history, row.day, row.times);
      NoRowsYet(t'.history, row.day);
      var found, at := FindOrCreateDay(days, row.day);
      FoundBlank(days, t, MonthOf(row.day), row.day, found, at);
      StoreDay(days, t, MonthOf(row.day), row.day, found, at, found[at].(times := row.times), t');
      result := found[at := found[at].(times := row.times)];
    }

    /** A row of another month leaves a list as it is. */
    lemma OtherRow(days: seq<Day>, history: map<nat, Times>, row: HistoryRow, month: int)
      requires Reads(days, Tables(history, [], None), month) && MonthOf(row.day) != month
      ensures Reads(days, Tables(history[row.day := row.times], [], None), month)
    {
      NextHistoryRow(history, row.day, row.times);
      OtherMonth(days, Tables(history, [], None), month, row.day, Tables(history[row.day := row.times], [], None));
    }

    /** One row of the loop: into the list of its month, if it is one of the two. */
    method LoadRow(row: HistoryRow, ghost history: map<nat, Times>, thisMonth: int)
      requires Reads(month, Tables(history, [], None), thisMonth)
      requires Reads(oldMonth, Tables(history, [], None), thisMonth - 1)
      modifies this`month, this`oldMonth
      ensures Reads(month, Tables(history[row.day := row.times], [], None), thisMonth)
      ensures Reads(oldMonth, Tables(history[row.day := row.times], [], None), thisMonth - 1)
    {
      if MonthOf(row.day) == thisMonth {
        OtherRow(oldMonth, history, row, thisMonth - 1);
        month := StoreRow(month, row, history);
      } else if MonthOf(row.day) == thisMonth - 1 {
        OtherRow(month, history, row, thisMonth);
        oldMonth := StoreRow(oldMonth, row, history);
      } else {
        OtherRow(month, history, row, thisMonth);
        OtherRow(oldMonth, history, row, thisMonth - 1);
      }
    }

    /** Loads `channel_history` for the current and the previous month. */
    method LoadHistory(today: nat)
      requires Valid() && month == [] && oldMonth == []
      modifies this
      ensures Reads(month, db.tables.(events := []), MonthOf(today))
      ensures Reads(oldMonth, db.tables.(events := []), MonthOf(today) - 1)
    {
      var thisMonth := MonthOf(today);
      var rows := db.SelectHistory();
      for n := 0 to |rows|
        invariant Reads(month, Tables(HistoryOf(rows[..n]), [], None), thisMonth)
        invariant Reads(oldMonth, Tables(HistoryOf(rows[..n]), [], None), thisMonth - 1)
      {
        HistoryAppend(rows[..n], rows[n]);
        assert rows[..n + 1] == rows[..n] + [rows[n]];
        LoadRow(rows[n], HistoryOf(rows[..n]), thisMonth);
      }
      assert rows[..|rows|] == rows;
      SameHistory(month, Tables(HistoryOf(rows), [], None), db.tables.(events := []), thisMonth);
      SameHistory(oldMonth, Tables(HistoryOf(rows), [], None), db.tables.(events := []), thisMonth - 1);
    }

    /** Appends one event row to the list of its day. */
    method AddEvent(days: seq<Day>, r: EventRow, ghost t: Tables, ghost t': Tables) returns (result: seq<Day>)
      requires Reads(days, t, MonthOf(r.day)) && r.day in t.history && DifferAt(t, t', r.day)
      requires var d := LoadDay(t, r.day);
               LoadDay(t', r.day)
               == if r.kind == Start then d.(starts := d.starts[r.channel := d.starts[r.channel] + [r.second]])
                  else d.(stops := d.stops[r.channel := d.stops[r.channel] + [r.second]])
      ensures Reads(result, t', MonthOf(r.day))
    {
      var found, at := FindOrCreateDay(days, r.day);
      var d := found[at];
      assert Known(t, MonthOf(r.day), LoadDay(t, r.day));
      assert d in days;
      assert d == LoadDay(t, r.day);
      if r.kind == Start {
        result := found[at := d.(starts := d.starts[r.channel := d.starts[r.channel] + [r.second]])];
      } else {
        result := found[at := d.(stops := d.stops[r.channel := d.stops[r.channel] + [r.second]])];
      }
      StoreDay(days, t, MonthOf(r.day), r.day, found, at, LoadDay(t', r.day), t');
    }

    /** Loads `channel_events`; the rows of days outside the window are deleted. */
    method LoadEvents(today: nat)
      requires Valid() && TablesOk(db.tables, today)
      requires Reads(month, db.tables.(events := []), MonthOf(today))
      requires Reads(oldMonth, db.tables.(events := []), MonthOf(today) - 1)
      modifies this, db
      ensures Valid()
      ensures db.tables == old(db.tables).(events := WindowRows(old(db.tables).events, today))
      ensures db.commits == old(db.commits) + Deletions(old(db.tables), StaleDays(old(db.tables).events, today))
      ensures Reads(month, old(db.tables), MonthOf(today))
      ensures Reads(oldMonth, old(db.tables), MonthOf(today) - 1)
    {
      var thisMonth := MonthOf(today);
      var rows := db.tables.events;
      var stale: seq<nat> := [];
      ghost var t := db.tables;
      for n := 0 to |rows|
        invariant Valid() && db.tables == t
        invariant Reads(month, t.(events := rows[..n]), thisMonth)
        invariant Reads(oldMonth, t.(events := rows[..n]), thisMonth - 1)
        invariant db.commits == old(db.commits) && stale == StaleDays(rows[..n], today)
      {
        var r := rows[n];
        assert r in rows;
        ghost var before, after := t.(events := rows[..n]), t.(events := rows[..n + 1]);
        NextEventRow(t, n);
        assert rows[..n + 1][..n] == rows[..n];
        ghost var month0, oldMonth0 := month, oldMonth;
        if MonthOf(r.day) == thisMonth {
          month := AddEvent(month, r, before, after);
          OtherMonth(oldMonth0, before, thisMonth - 1, r.day, after);
        } else if MonthOf(r.day) == thisMonth - 1 {
          oldMonth := AddEvent(oldMonth, r, before, after);
          OtherMonth(month0, before, thisMonth, r.day, after);
        } else {
          stale := stale + [r.day];
          OtherMonth(month0, before, thisMonth, r.day, after);
          OtherMonth(oldMonth0, before, thisMonth - 1, r.day, after);
        }
      }
      assert rows[..|rows|] == rows;
      StaleRows(rows, today);
      DeleteStale(stale, today);
    }

    method DeleteStale(stale: seq<nat>, today: nat)
      requires !db.inTransaction
      requires forall r :: r in db.tables.events ==> (r.day in stale <==> !InWindow(r.day, today))
      modifies db
      ensures !db.inTransaction
      ensures db.tables == old(db.tables).(events := WindowRows(old(db.tables).events, today))
      ensures db.commits == old(db.commits) + Deletions(old(db.tables), stale)
    {
      ghost var t := db.tables;
      WithoutNone(t.events);
      assert stale[..0] == [];
      for n := 0 to |stale|
        invariant !db.inTransaction && db.tables == t.(events := WithoutDays(t.events, stale[..n]))
        invariant db.commits == old(db.commits) + Deletions(t, stale[..n])
      {
        db.DeleteEventsOf(stale[n]);
        WithoutOneMore(t.events, stale[..n], stale[n]);
        DeletionsAppend(t, stale[..n], stale[n]);
        assert stale[..n + 1] == stale[..n] + [stale[n]];
      }
      assert stale[..|stale|] == stale;
      WithoutStale(t.events, stale, today);
    }

    /** Copies a session row of today into the open session. */
    method CopySession(row: SessionRow)
      requires Valid()
      modifies sessionTimes, working
      ensures Valid() && sessionTimes[..] == row.times && working[..] == Unmask(row.working)
    {
      for i := 0 to CHANNELS
        invariant Valid() && sessionTimes[..i] == row.times[..i]
        invariant forall k :: 0 <= k < i ==> working[k] == Bit(row.working, k)
      {
        sessionTimes[i] := row.times[i];
        working[i] := Bit(row.working, i);
      }
    }

    /** Closes an earlier day's session into that day. */
    method CloseOldSession(row: SessionRow, today: nat)
      requires Valid() && TablesOk(db.tables, today) && row.day != today
      requires Reads(month, db.tables, MonthOf(today)) && Reads(oldMonth, db.tables, MonthOf(today) - 1)
      modifies this, db
      ensures Valid() && db.tables == AddHistory(old(db.tables), row.day, row.times)
      ensures db.commits == old(db.commits) + [db.tables]
      ensures Reads(month, db.tables, MonthOf(today)) && Reads(oldMonth, db.tables, MonthOf(today) - 1)
    {
      var thisMonth, m := MonthOf(today), MonthOf(row.day);
      ghost var t, t1 := db.tables, AddHistory(db.tables, row.day, row.times);
      ghost var month0, oldMonth0 := month, oldMonth;
      if m == thisMonth {
        var days, at := FindOrCreateDay(month, row.day);
        var d := days[at].(times := Plus(days[at].times, row.times));
        ClosedDay(t, row, today, month, days, at);
        month := days[at := d];
        db.SaveHistoryDay(d);
        StoreDay(month0, t, m, row.day, days, at, d, t1);
        OtherMonth(oldMonth0, t, thisMonth - 1, row.day, t1);
      } else if m == thisMonth - 1 {
        var days, at := FindOrCreateDay(oldMonth, row.day);
        var d := days[at].(times := Plus(days[at].times, row.times));
        ClosedDay(t, row, today, oldMonth, days, at);
        oldMonth := days[at := d];
        db.SaveHistoryDay(d);
        StoreDay(oldMonth0, t, m, row.day, days, at, d, t1);
        OtherMonth(month0, t, thisMonth, row.day, t1);
      } else {
        db.AddHistoryTimes(row.day, row.times);
        AddedElsewhere(t, row);
        OtherMonth(month0, t, thisMonth, row.day, t1);
        OtherMonth(oldMonth0, t, thisMonth - 1, row.day, t1);
      }
    }

    /** Restores a session row of today, or closes an earlier day's session into that day. */
    method RestoreSession(today: nat)
      requires Valid() && TablesOk(db.tables, today)
      requires sessionTimes[..] == Zero() && working[..] == NoFlags() && pending[..] == Zero()
      requires Reads(month, db.tables, MonthOf(today)) && Reads(oldMonth, db.tables, MonthOf(today) - 1)
      modifies this, db, sessionTimes, working
      ensures Valid() && db.tables == CloseSession(old(db.tables), today)
      ensures db.commits == old(db.commits) + if Closes(old(db.tables), today) then [db.tables] else []
      ensures Session(sessionTimes[..], working[..], pending[..]) == RestoredSession(old(db.tables), today)
      ensures Reads(month, db.tables, MonthOf(today)) && Reads(oldMonth, db.tables, MonthOf(today) - 1)
    {
      if db.tables.session.Some? {
        var row := db.tables.session.value;
        if row.day == today {
          CopySession(row);
        } else if row.day > 0 {
          CloseOldSession(row, today);
        }
      }
    }

    /** The bit mask of the working channels, set bit by bit. */
    method WorkingMask() returns (mask: nat)
      requires working.Length == CHANNELS
      ensures mask == Mask(working[..])
    {
      mask := 0;
      for i := 0 to CHANNELS
        invariant mask == Mask(working[..i])
      {
        assert working[..i + 1] == working[..i] + [working[i]];
        MaskAppend(working[..i], working[i]);
        if working[i] {
          mask := mask + Pow2(i);
        }
      }
      assert working[..CHANNELS] == working[..];
    }

    /** `db_save_session`: the open session under the current day. */
    method SaveSessionRow()
      requires Valid() || (db.inTransaction && working.Length == CHANNELS && sessionTimes.Length == CHANNELS)
      modifies db
      ensures db.inTransaction == old(db.inTransaction)
      ensures month == [] ==> db.tables == old(db.tables) && db.commits == old(db.commits)
      ensures month != [] ==>
        && db.tables == SaveSession(old(db.tables), LastDay(month).epoch,
                                    Session(sessionTimes[..], working[..], Zero()))
        && db.commits == db.Extended(old(db.commits))
    {
      if month == [] {
        return;
      }
      var mask := WorkingMask();
      db.ReplaceSession(SessionRow(month[|month| - 1].epoch, sessionTimes[..], mask));
    }

    /** The transaction shared by `new_day` and `new_month`. */
    method SaveCurrentDay()
      requires Valid() && month != []
      modifies db
      ensures Valid() && db.tables == SaveDay(old(db.tables), LastDay(month))
      ensures db.commits == old(db.commits) + [db.tables]
    {
      db.Begin();
      db.SaveHistoryDay(month[|month| - 1]);
      db.SaveEventsDay(month[|month| - 1]);
      db.Commit();
    }

    method NewDay(today: nat)
      requires Valid()
      modifies this, db
      ensures Valid() && month == old(month) + [EmptyDay(today)] && oldMonth == old(oldMonth)
      ensures old(month) == [] ==> db.tables == old(db.tables) && db.commits == old(db.commits)
      ensures old(month) != [] ==>
        db.tables == SaveDay(old(db.tables), LastDay(old(month))) && db.commits == old(db.commits) + [db.tables]
    {
      if month != [] {
        SaveCurrentDay();
      }
      month := month + [EmptyDay(today)];
    }

    method NewMonth()
      requires Valid() && month != []
      modifies this, db
      ensures Valid() && month == [] && oldMonth == old(month)
      ensures var saved := SaveDay(old(db.tables), LastDay(old(month)));
              if old(oldMonth) == [] then
                db.tables == saved && db.commits == old(db.commits) + [saved]
              else
                && db.tables == TrimEvents(saved, old(oldMonth)[0].epoch)
                && db.commits == old(db.commits) + [saved, db.tables]
    {
      SaveCurrentDay();
      if oldMonth != [] {
        db.DeleteEventsBefore(oldMonth[0].epoch);
      }
      oldMonth := month;
      month := [];
    }

    /** The merge loop of `new_session`. */
    method MergeSession()
      requires Valid() && month != []
      modifies this`month, sessionTimes
      ensures Valid() && State() == Merged(old(State()))
    {
      var last := |month| - 1;
      ghost var d0, times0, month0 := month[last], sessionTimes[..], month;
      for i := 0 to CHANNELS
        invariant |month| == last + 1 && month == month0[last := month[last]]
        invariant month[last] == d0.(times := month[last].times)
        invariant forall k :: 0 <= k < i ==> month[last].times[k] == d0.times[k] + times0[k] && sessionTimes[k] == 0
        invariant forall k :: i <= k < CHANNELS ==> month[last].times[k] == d0.times[k] && sessionTimes[k] == times0[k]
      {
        var d := month[last];
        month := month[last := d.(times := d.times[i := d.times[i] + sessionTimes[i]])];
        sessionTimes[i] := 0;
      }
      assert month[last].times == Plus(d0.times, times0);
      assert sessionTimes[..] == Zero();
    }

    method NewSession(today: nat)
      requires Valid() && month != []
      modifies this, db, sessionTimes
      ensures Valid() && State() == Ledger.NewSession(old(State()), today)
      ensures db.commits == old(db.commits) + NewSessionCommits(old(State()), today)
    {
      MergeSession();
      SaveSessionRow();
      var current := month[|month| - 1].epoch;
      if current != today {
        if MonthOf(today) != MonthOf(current) {
          NewMonth();
        }
        NewDay(today);
      }
    }

    /** One turn of the channel loop of `set`. */
    method SetChannel(i: Channel, second: int, value: int)
      requires Valid() && month != []
      modifies this`month, sessionTimes, working, pending
      ensures Valid() && |month| == |old(month)|
      ensures var step := StepChannel(old(working[i]), old(pending[i]), old(sessionTimes[i]), value);
              var d := LastDay(old(month));
              && sessionTimes[..] == old(sessionTimes[..])[i := value]
              && working[..] == old(working[..])[i := step.working]
              && pending[..] == old(pending[..])[i := step.pending]
              && month == old(month)[|old(month)| - 1 :=
                   d.(starts := d.starts[i := Recorded(d.starts[i], step, Start, second)],
                      stops := d.stops[i := Recorded(d.stops[i], step, Stop, second)])]
    {
      var last := |month| - 1;
      var d := month[last];
      assert d.starts[i := d.starts[i]] == d.starts && d.stops[i := d.stops[i]] == d.stops;
      var before := sessionTimes[i];
      var increased, equal := value > before, value == before;
      if increased && !working[i] {
        pending[i] := pending[i] + 1;
        if pending[i] >= 3 {
          working[i] := true;
          pending[i] := 0;
          month := month[last := d.(starts := d.starts[i := d.starts[i] + [second]])];
        }
      } else if equal && working[i] {
        pending[i] := pending[i] + 1;
        if pending[i] >= 3 {
          working[i] := false;
          pending[i] := 0;
          month := month[last := d.(stops := d.stops[i := d.stops[i] + [second]])];
        }
      } else if (increased && working[i]) || (equal && !working[i]) {
        pending[i] := 0;
      }
      sessionTimes[i] := value;
    }

    /** The channel loop of `set`. */
    method SetChannels(second: int, data: seq<Byte>)
      requires Valid() && month != [] && |data| == 4 * SLOTS
      modifies this`month, sessionTimes, working, pending
      ensures Valid() && State() == Receive(old(State()), second, Values(data))
    {
      ghost var m, values := State(), Values(data);
      ReceiveNone(m, second, values);
      for i := 0 to CHANNELS
        invariant Valid() && State() == ReceiveUpTo(m, second, values, i)
      {
        var j := if i < 11 then i else i + 1;
        ReceiveNext(m, second, values, i);
        SetChannel(i, second, FourBytesToInt(data, j) / 0x100);
      }
      ReceiveDone(m, second, values);
    }

    /** `set` at a local second: a packet of the wrong size is refused and changes nothing. */
    method Set(now: nat, data: seq<Byte>) returns (ok: bool)
      requires Valid() && month != []
      modifies this, db, sessionTimes, working, pending
      ensures Valid() && ok == (|data| == 4 * SLOTS)
      ensures !ok ==> State() == old(State()) && db.commits == old(db.commits)
      ensures ok ==>
        && State() == Packet(old(State()), now / 86400, now % 86400, Flag(data), Values(data))
        && db.commits == old(db.commits)
             + if Flag(data) then NewSessionCommits(old(State()), now / 86400) else []
    {
      if |data| != 4 * SLOTS {
        return false;
      }
      if FourBytesToInt(data, FLAG_SLOT) != 0 {
        NewSession(now / 86400);
      }
      SetChannels(now % 86400, data);
      ok := true;
    }

    /** `update_today`. */
    method UpdateToday()
      requires Valid() && month != []
      modifies db
      ensures Valid() && State() == SaveToday(old(State()))
      ensures db.commits == old(db.commits) + SaveTodayCommits(old(State()))
    {
      db.SaveHistoryDay(month[|month| - 1]);
      SaveSessionRow();
    }

    /** The destructor. */
    method Close()
      requires Valid() && month != []
      modifies db
      ensures Valid() && db.tables == Shutdown(old(State()))
      ensures db.commits == old(db.commits) + [Shutdown(old(State()))]
    {
      db.Begin();
      db.SaveHistoryDay(month[|month| - 1]);
      SaveSessionRow();
      db.SaveEventsDay(month[|month| - 1]);
      db.Commit();
    }

    /** `get_day_info`. */
    method GetDayInfo(d: Day) returns (r: Reply)
      requires Valid() && month != []
      ensures r == if d.epoch == LastDay(month).epoch
                   then DayInfo(Plus(d.times, sessionTimes[..]), working[..])
                   else DayInfo(d.times, NoFlags())
    {
      var current := month[|month| - 1].epoch == d.epoch;
      if current {
        r := DayInfo(Plus(d.times, sessionTimes[..]), working[..]);
      } else {
        r := DayInfo(d.times, NoFlags());
      }
    }

    /** `get`: whether a day is answered from memory or from the database, the answer is its entry in
        the book, with the open session added on the current day. */
    method Get(day: int) returns (r: Reply)
      requires Valid() && Inv(State())
      ensures day == 0 ==> r == DayList(Epochs(oldMonth + month))
      ensures day != 0 ==>
        r == if 0 < day && day as nat in Book(State())
             then if day == LastDay(month).epoch
                  then DayInfo(Plus(Book(State())[day], sessionTimes[..]), working[..])
                  else DayInfo(Book(State())[day], NoFlags())
             else NotFound
    {
      ghost var m := State();
      if day == 0 {
        return DayList(Epochs(oldMonth + month));
      }
      var earliest := if oldMonth != [] then oldMonth[0].epoch else month[0].epoch;
      assert earliest == Days(m)[0].epoch;
      if day < earliest {
        EarlierThanMemory(m, day);
        if 0 <= day && day in db.tables.history {
          r := DayInfo(db.tables.history[day], NoFlags());
        } else {
          r := NotFound;
        }
      } else {
        for i := 0 to |oldMonth|
          invariant forall k :: 0 <= k < i ==> oldMonth[k].epoch != day
        {
          if oldMonth[i].epoch == day {
            assert oldMonth[i] in Days(m);
            MemoryIsBook(m, oldMonth[i]);
            r := GetDayInfo(oldMonth[i]);
            return;
          }
        }
        for i := 0 to |month|
          invariant forall k :: 0 <= k < i ==> month[k].epoch != day
        {
          if month[i].epoch == day {
            assert month[i] in Days(m);
            MemoryIsBook(m, month[i]);
            r := GetDayInfo(month[i]);
            return;
          }
        }
        NotInMemory(m, day);
        r := NotFound;
      }
    }
  }

  // ---------------------------------------------------------------------------------------------
  // Loading
  // ---------------------------------------------------------------------------------------------

  lemma OnlyDay(days: seq<Day>, i: nat)
    requires Ascending(days) && i < |days|
    ensures Found(days, days[i].epoch, days, i)
  {
  }

  lemma InsertedDay(days: seq<Day>, at: nat, epoch: nat)
    requires Ascending(days) && at <= |days|
    requires forall k :: 0 <= k < at ==> days[k].epoch < epoch
    requires at < |days| ==> days[at].epoch > epoch
    ensures Found(days, epoch, days[..at] + [EmptyDay(epoch)] + days[at..], at)
  {
    var result := days[..at] + [EmptyDay(epoch)] + days[at..];
    forall i, j | 0 <= i < j < |result|
      ensures result[i].epoch < result[j].epoch
    {
    }
    assert forall d :: d in days <==> d in days[..at] || d in days[at..] by {
      assert days == days[..at] + days[at..];
    }
  }

  lemma FoundBlank(days: seq<Day>, t: Tables, month: int, epoch: nat, days': seq<Day>, at: nat)
    requires Reads(days, t, month) && Found(days, epoch, days', at) && t.events == []
    ensures days'[at].starts == NoEvents() && days'[at].stops == NoEvents()
  {
    if days'[at] in days {
      assert Known(t, month, days'[at]);
      assert Lists([], epoch, Start) == NoEvents();
      assert Lists([], epoch, Stop) == NoEvents();
    }
  }

  lemma SameHistory(days: seq<Day>, t: Tables, t': Tables, month: int)
    requires Reads(days, t, month) && t.history == t'.history && t.events == t'.events
    ensures Reads(days, t', month)
  {
    forall d
      ensures d in days <==> Known(t', month, d)
    {
      assert d in days <==> Known(t, month, d);
      assert LoadDay(t, d.epoch) == LoadDay(t', d.epoch);
    }
  }

  /** Dropping rows outside the window does not show in the window's months. */
  lemma WindowReads(days: seq<Day>, t: Tables, today: nat, month: int)
    requires Reads(days, t, month) && (month == MonthOf(today) || month == MonthOf(today) - 1)
    ensures Reads(days, t.(events := WindowRows(t.events, today)), month)
  {
    var t' := t.(events := WindowRows(t.events, today));
    forall d
      ensures d in days <==> Known(t', month, d)
    {
      assert d in days <==> Known(t, month, d);
      if MonthOf(d.epoch) == month {
        WindowDay(t, today, d.epoch);
      }
    }
  }

  function Epochs(days: seq<Day>): seq<nat> {
    seq(|days|, i requires 0 <= i < |days| => days[i].epoch)
  }

  // ---------------------------------------------------------------------------------------------
  // The channel loop
  // ---------------------------------------------------------------------------------------------

  function RecordUpTo(lists: EventLists, s: Session, values: Times, kind: EventKind, second: int, n: nat): EventLists {
    seq(CHANNELS, i requires 0 <= i < CHANNELS =>
      if i < n then Recorded(lists[i], StepAt(s, values, i), kind, second) else lists[i])
  }

  function StepUpTo(s: Session, values: Times, n: nat): Session {
    Session(
      seq(CHANNELS, i requires 0 <= i < CHANNELS => if i < n then values[i] else s.times[i]),
      seq(CHANNELS, i requires 0 <= i < CHANNELS => if i < n then StepAt(s, values, i).working else s.working[i]),
      seq(CHANNELS, i requires 0 <= i < CHANNELS => if i < n then StepAt(s, values, i).pending else s.pending[i]))
  }

  function UpTo(d: Day, s: Session, values: Times, second: int, n: nat): Day {
    d.(starts := RecordUpTo(d.starts, s, values, Start, second, n),
       stops := RecordUpTo(d.stops, s, values, Stop, second, n))
  }

  /** The state after the first `n` channels. */
  function ReceiveUpTo(m: Machine, second: int, values: Times, n: nat): Machine
    requires m.month != []
  {
    m.(month := m.month[|m.month| - 1 := UpTo(LastDay(m.month), m.session, values, second, n)],
       session := StepUpTo(m.session, values, n))
  }

  lemma ReceiveNone(m: Machine, second: int, values: Times)
    requires m.month != []
    ensures ReceiveUpTo(m, second, values, 0) == m
  {
    var d, s := LastDay(m.month), m.session;
    assert RecordUpTo(d.starts, s, values, Start, second, 0) == d.starts;
    assert RecordUpTo(d.stops, s, values, Stop, second, 0) == d.stops;
    assert StepUpTo(s, values, 0).times == s.times;
    assert StepUpTo(s, values, 0).working == s.working;
    assert StepUpTo(s, values, 0).pending == s.pending;
  }

  lemma ReceiveNext(m: Machine, second: int, values: Times, i: Channel)
    requires m.month != []
    ensures var before, after := ReceiveUpTo(m, second, values, i), ReceiveUpTo(m, second, values, i + 1);
            var d, s := LastDay(before.month), before.session;
            var step := StepChannel(s.working[i], s.pending[i], s.times[i], values[i]);
            && after.session.times == s.times[i := values[i]]
            && after.session.working == s.working[i := step.working]
            && after.session.pending == s.pending[i := step.pending]
            && after.month == before.month[|before.month| - 1 :=
                 d.(starts := d.starts[i := Recorded(d.starts[i], step, Start, second)],
                    stops := d.stops[i := Recorded(d.stops[i], step, Stop, second)])]
  {
    var before, after := ReceiveUpTo(m, second, values, i), ReceiveUpTo(m, second, values, i + 1);
    var d, s := LastDay(before.month), before.session;
    var step := StepChannel(s.working[i], s.pending[i], s.times[i], values[i]);
    assert step == StepAt(m.session, values, i);
    assert LastDay(after.month).starts == d.starts[i := Recorded(d.starts[i], step, Start, second)];
    assert LastDay(after.month).stops == d.stops[i := Recorded(d.stops[i], step, Stop, second)];
  }

  lemma ReceiveDone(m: Machine, second: int, values: Times)
    requires m.month != []
    ensures ReceiveUpTo(m, second, values, CHANNELS) == Receive(m, second, values)
  {
    var d, s := LastDay(m.month), m.session;
    assert RecordUpTo(d.starts, s, values, Start, second, CHANNELS) == RecordAll(d.starts, s, values, Start, second);
    assert RecordUpTo(d.stops, s, values, Stop, second, CHANNELS) == RecordAll(d.stops, s, values, Stop, second);
    assert StepUpTo(s, values, CHANNELS).times == values;
    assert StepUpTo(s, values, CHANNELS).working == StepAll(s, values).working;
    assert StepUpTo(s, values, CHANNELS).pending == StepAll(s, values).pending;
  }

  // ---------------------------------------------------------------------------------------------
  // Reading through memory and database
  // ---------------------------------------------------------------------------------------------

  lemma MemoryIsBook(m: Machine, d: Day)
    requires Inv(m) && d in Days(m)
    ensures d.epoch in Book(m) && Book(m)[d.epoch] == d.times
  {
    DaysSplit(m);
    ClosedBefore(m);
    if d in Closed(m) {
      assert Mirrors(m.tables, d);
      assert LoadDay(m.tables, d.epoch).times == d.times;
    }
  }

  lemma EarlierThanMemory(m: Machine, day: int)
    requires Inv(m) && day < Days(m)[0].epoch
    ensures day != Current(m).epoch
  {
    CurrentInMemory(m);
    FirstIsLeast(m);
  }

  lemma BookInMemory(m: Machine, day: nat)
    requires Inv(m) && Days(m)[0].epoch <= day && day in Book(m)
    ensures (exists k :: 0 <= k < |m.oldMonth| && m.oldMonth[k].epoch == day)
         || (exists k :: 0 <= k < |m.month| && m.month[k].epoch == day)
  {
    CurrentInMemory(m);
    if day != Current(m).epoch {
      assert Placed(m, day);
    }
    var d :| d in Days(m) && d.epoch == day;
    assert d in m.oldMonth || d in m.month;
  }

  lemma NotInMemory(m: Machine, day: int)
    requires Inv(m) && Days(m)[0].epoch <= day
    requires forall k :: 0 <= k < |m.oldMonth| ==> m.oldMonth[k].epoch != day
    requires forall k :: 0 <= k < |m.month| ==> m.month[k].epoch != day
    ensures day !in Book(m)
  {
    if day in Book(m) {
      BookInMemory(m, day);
    }
  }
}
