/** Every operation of the ledger machine keeps its invariant: packets, resets, saves, shutdown and
    startup. */
module LedgerRuns {
  import opened Calendar
  import opened Ledger
  import opened LedgerTables
  import opened LedgerInvariant

  // ---------------------------------------------------------------------------------------------
  // The invariant under the operations
  // ---------------------------------------------------------------------------------------------

  lemma InvReceive(m: Machine, second: int, values: Times)
    requires Inv(m)
    ensures Inv(Receive(m, second, values))
  {
    var d := Current(m);
    var d' := d.(starts := RecordAll(d.starts, m.session, values, Start, second),
                 stops := RecordAll(d.stops, m.session, values, Stop, second));
    InvWithCurrent(m, d', StepAll(m.session, values));
  }

  lemma InvMerged(m: Machine)
    requires Inv(m)
    ensures Inv(Merged(m)) && Current(Merged(m)).epoch == Current(m).epoch
  {
    var d := Current(m);
    InvWithCurrent(m, d.(times := Plus(d.times, m.session.times)), m.session.(times := Zero()));
  }

  lemma InvNewSession(m: Machine, today: nat)
    requires Inv(m) && Current(m).epoch <= today
    ensures Inv(NewSession(m, today)) && Current(NewSession(m, today)).epoch == today
    ensures forall t :: t in NewSessionCommits(m, today) ==> TablesOk(t, Current(m).epoch) && t.session.Some?
  {
    InvMerged(m);
    var m1 := Merged(m);
    var zeroed := SaveSession(m.tables, Current(m1).epoch, m1.session);
    InvSessionRow(m1, m1.session);
    if Current(m1).epoch != today {
      InvRollover(m1.(tables := zeroed), today);
    }
  }

  /** Saving the day, trimming, and the new day in this month or a later one. */
  lemma InvRollover(m: Machine, today: nat)
    requires Inv(m) && Current(m).epoch < today
    ensures
      var saved := m.(tables := SaveDay(m.tables, Current(m)));
      var trimmed := if m.oldMonth == [] then saved
                     else saved.(tables := TrimEvents(saved.tables, m.oldMonth[0].epoch));
      && TablesOk(saved.tables, Current(m).epoch) && TablesOk(trimmed.tables, Current(m).epoch)
      && (MonthOf(today) == MonthOf(Current(m).epoch) ==> Inv(saved.(month := m.month + [EmptyDay(today)])))
      && (MonthOf(today) != MonthOf(Current(m).epoch) ==> Inv(trimmed.(month := [EmptyDay(today)], oldMonth := m.month)))
  {
    InvSaveDay(m);
    var saved := m.(tables := SaveDay(m.tables, Current(m)));
    MonthOfGrows(Current(m).epoch, today);
    if m.oldMonth != [] {
      InvTrim(saved);
    }
    if MonthOf(today) == MonthOf(Current(m).epoch) {
      InvNewDay(saved, today);
    } else if m.oldMonth == [] {
      InvNewMonth(saved, today);
    } else {
      InvNewMonth(saved.(tables := TrimEvents(saved.tables, m.oldMonth[0].epoch)), today);
    }
  }

  lemma InvPacket(m: Machine, today: nat, second: int, flag: bool, values: Times)
    requires Inv(m) && Current(m).epoch <= today
    ensures Inv(Packet(m, today, second, flag, values))
    ensures Current(Packet(m, today, second, flag, values)).epoch == if flag then today else Current(m).epoch
  {
    if flag {
      InvNewSession(m, today);
      InvReceive(NewSession(m, today), second, values);
    } else {
      InvReceive(m, second, values);
    }
  }

  lemma InvSaveToday(m: Machine)
    requires Inv(m)
    ensures Inv(SaveToday(m)) && Current(SaveToday(m)) == Current(m)
    ensures forall t :: t in SaveTodayCommits(m) ==> TablesOk(t, Current(m).epoch) && t.session.Some?
  {
    InvHistoryRow(m);
    var m1 := m.(tables := SaveHistory(m.tables, Current(m)));
    InvSessionRow(m1, m1.session);
  }

  lemma ShutdownOk(m: Machine)
    requires Inv(m)
    ensures TablesOk(Shutdown(m), Current(m).epoch) && Shutdown(m).session.Some?
  {
    InvHistoryRow(m);
    var m1 := m.(tables := SaveHistory(m.tables, Current(m)));
    InvSessionRow(m1, m1.session);
    FilteredRows(m.tables.events, Current(m).epoch);
    RowsUpToDays(Current(m), CHANNELS);
  }

  // ---------------------------------------------------------------------------------------------
  // Starting up
  // ---------------------------------------------------------------------------------------------

  /** The tables once startup has dropped old event rows and closed an earlier day's session. */
  function Prepared(t: Tables, today: nat): Tables {
    CloseSession(t.(events := WindowRows(t.events, today)), today)
  }

  lemma PreparedOk(t: Tables, today: nat)
    requires TablesOk(t, today)
    ensures TablesOk(Prepared(t, today), today)
  {
    FilteredRows(t.events, today);
  }

  lemma LoadedMonths(t: Tables, today: nat)
    ensures Ascending(LoadMonth(t, MonthOf(today) - 1, today) + LoadMonth(t, MonthOf(today), today) + [LoadDay(t, today)])
  {
    var prev: seq<Day>, cur: seq<Day> := LoadMonth(t, MonthOf(today) - 1, today), LoadMonth(t, MonthOf(today), today);
    LoadMonthDays(t, MonthOf(today) - 1, today);
    LoadMonthDays(t, MonthOf(today), today);
    forall d, d' | d in prev && d' in cur
      ensures d.epoch < d'.epoch
    {
      LaterMonth(d.epoch, d'.epoch);
    }
    AscendingConcat(prev, cur);
    AscendingAppend(prev + cur, LoadDay(t, today));
  }

  lemma AscendingConcat(a: seq<Day>, b: seq<Day>)
    requires Ascending(a) && Ascending(b) && forall d, d' :: d in a && d' in b ==> d.epoch < d'.epoch
    ensures Ascending(a + b)
  {
    forall i: int, j: int | 0 <= i < j < |a + b|
      ensures (a + b)[i].epoch < (a + b)[j].epoch
    {
      if i < |a| <= j {
        assert a[i] in a && b[j - |a|] in b;
      }
    }
  }

  lemma LaterMonth(a: nat, b: nat)
    requires MonthOf(a) < MonthOf(b)
    ensures a < b
  {
    if b <= a {
      MonthOfGrows(b, a);
    }
  }

  lemma StartupShape(t: Tables, today: nat)
    requires TablesOk(t, today) && today >= 1
    ensures Shape(Startup(t, today))
  {
    var m, t1 := Startup(t, today), Prepared(t, today);
    PreparedOk(t, today);
    LoadedMonths(t1, today);
    LoadMonthDays(t1, MonthOf(today) - 1, today);
    LoadMonthDays(t1, MonthOf(today), today);
    assert Days(m) == m.oldMonth + LoadMonth(t1, MonthOf(today), today) + [LoadDay(t1, today)];
  }

  lemma StartupPlaced(t: Tables, today: nat, day: nat)
    requires TablesOk(t, today) && today >= 1
    requires day in Prepared(t, today).history
    ensures Placed(Startup(t, today), day)
  {
    var m, t1 := Startup(t, today), Prepared(t, today);
    PreparedOk(t, today);
    StartupShape(t, today);
    DaysSplit(m);
    LoadMonthDays(t1, MonthOf(today) - 1, today);
    LoadMonthDays(t1, MonthOf(today), today);
    MonthOfGrows(day, today);
    if day == today {
      CurrentInMemory(m);
    } else if MonthOf(day) >= MonthOf(today) - 1 {
      var month := MonthOf(day);
      assert Loaded(t1, month, today, LoadDay(t1, day));
      assert LoadDay(t1, day) in Days(m);
    } else {
      var first := Days(m)[0];
      assert first in m.oldMonth || first in LoadMonth(t1, MonthOf(today), today) || first == Current(m);
      LaterMonth(day, first.epoch);
    }
  }

  lemma InvStartup(t: Tables, today: nat)
    requires TablesOk(t, today) && today >= 1
    ensures Inv(Startup(t, today)) && Current(Startup(t, today)).epoch == today
  {
    var m, t1 := Startup(t, today), Prepared(t, today);
    PreparedOk(t, today);
    StartupShape(t, today);
    LoadMonthDays(t1, MonthOf(today) - 1, today);
    LoadMonthDays(t1, MonthOf(today), today);
    assert m.month[..|m.month| - 1] == LoadMonth(t1, MonthOf(today), today);
    forall d | d in Closed(m)
      ensures Mirrors(m.tables, d)
    {
      assert Loaded(t1, MonthOf(today), today, d) || Loaded(t1, MonthOf(today) - 1, today, d);
    }
    forall day | day in m.tables.history
      ensures Placed(m, day)
    {
      StartupPlaced(t, today, day);
    }
  }
}
