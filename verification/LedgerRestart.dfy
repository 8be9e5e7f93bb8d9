/** Restarts: what comes back after a clean shutdown. */
module LedgerRestart {
  import opened Calendar
  import opened Ledger
  import opened LedgerTables
  import opened LedgerInvariant
  import opened LedgerRuns
  import opened LedgerBook

  /** The tables after a clean shutdown read back every day in memory. */
  lemma ShutdownMirrors(m: Machine, d: Day)
    requires Inv(m) && d in Days(m)
    ensures d.epoch in Shutdown(m).history && LoadDay(Shutdown(m), d.epoch) == d
  {
    DaysSplit(m);
    ClosedBefore(m);
    var c := Current(m);
    if d == c {
      SavedDay(m.tables, c);
      assert LoadDay(Shutdown(m), d.epoch) == LoadDay(SaveDay(m.tables, c), d.epoch);
    } else {
      assert d in Closed(m);
      assert Mirrors(m.tables, d);
      SavedDayOthers(m.tables, c, d.epoch);
      assert LoadDay(Shutdown(m), d.epoch) == LoadDay(SaveDay(m.tables, c), d.epoch);
    }
  }

  /** A recorded day of the window is in memory before the restart. */
  lemma WindowInMemory(m: Machine, day: nat)
    requires Inv(m) && day in Shutdown(m).history && InWindow(day, Current(m).epoch)
    ensures InMemory(m, day)
  {
    CurrentInMemory(m);
    if day != Current(m).epoch {
      assert Placed(m, day);
    }
  }

  /** What startup loads for a month of the window is what memory held for it. */
  lemma LoadedIsKept(m: Machine, month: int, d: Day)
    requires Inv(m)
    requires month == MonthOf(Current(m).epoch) || month == MonthOf(Current(m).epoch) - 1
    ensures d in LoadMonth(Prepared(Shutdown(m), Current(m).epoch), month, Current(m).epoch)
       <==> d in Closed(m) && MonthOf(d.epoch) == month
  {
    var today, t := Current(m).epoch, Shutdown(m);
    var t1 := Prepared(t, today);
    LoadMonthDays(t1, month, today);
    DaysSplit(m);
    ClosedBefore(m);
    if d in Closed(m) && MonthOf(d.epoch) == month {
      ShutdownMirrors(m, d);
      WindowDay(t, today, d.epoch);
      assert LoadDay(t1, d.epoch) == LoadDay(t, d.epoch);
      assert Loaded(t1, month, today, d);
    } else if Loaded(t1, month, today, d) {
      WindowInMemory(m, d.epoch);
      var x :| x in Days(m) && x.epoch == d.epoch;
      ShutdownMirrors(m, x);
      WindowDay(t, today, d.epoch);
    }
  }

  lemma ClosedOfMonth(m: Machine, d: Day)
    requires Shape(m)
    ensures d in m.month[..|m.month| - 1] <==> d in Closed(m) && MonthOf(d.epoch) == MonthOf(Current(m).epoch)
    ensures d in m.oldMonth <==> d in Closed(m) && MonthOf(d.epoch) != MonthOf(Current(m).epoch)
  {
    assert forall x :: x in m.month[..|m.month| - 1] ==> x in m.month;
  }

  lemma AscendingHead(a: seq<Day>, b: seq<Day>)
    requires Ascending(a + b)
    ensures Ascending(a)
  {
    forall i, j | 0 <= i < j < |a|
      ensures a[i].epoch < a[j].epoch
    {
      assert (a + b)[i] == a[i] && (a + b)[j] == a[j];
    }
  }

  /** Round trip on the same day: all days, start and stop lists, session times and the working mask
      come back; the pending counts start again, and an old month that is not the previous calendar
      month stays in the database. */
  lemma RestartSameDay(m: Machine)
    requires Inv(m)
    ensures var m' := Startup(Shutdown(m), Current(m).epoch);
            && m'.month == m.month
            && m'.session == m.session.(pending := Zero())
            && m'.tables.history == Shutdown(m).history
            && (forall d :: d in m'.oldMonth <==>
                 d in m.oldMonth && MonthOf(d.epoch) == MonthOf(Current(m).epoch) - 1)
  {
    var today, t := Current(m).epoch, Shutdown(m);
    var t1, m' := Prepared(t, today), Startup(t, today);
    var month := LoadMonth(t1, MonthOf(today), today);
    LoadMonthDays(t1, MonthOf(today), today);
    DaysSplit(m);
    AscendingTail(m.oldMonth, m.month);
    AscendingHead(m.month[..|m.month| - 1], [Current(m)]);
    forall d
      ensures d in month <==> d in m.month[..|m.month| - 1]
      ensures d in m'.oldMonth <==> d in m.oldMonth && MonthOf(d.epoch) == MonthOf(today) - 1
    {
      LoadedIsKept(m, MonthOf(today), d);
      LoadedIsKept(m, MonthOf(today) - 1, d);
      ClosedOfMonth(m, d);
    }
    SameDays(month, m.month[..|m.month| - 1]);
    ShutdownMirrors(m, Current(m));
    WindowDay(t, today, today);
    assert LoadDay(t1, today) == LoadDay(t, today);
    MaskRoundTrip(m.session.working);
  }

  /** On a later day the session is closed into its own day exactly once: restarting again on that
      day changes no entry. */
  lemma SecondRestartAddsNothing(m: Machine, today: nat)
    requires Inv(m) && Current(m).epoch <= today
    ensures var m1 := Startup(Shutdown(m), today);
            var m2 := Startup(Shutdown(m1), today);
            && Abs(m1) == AccountRestart(Abs(m), today)
            && Abs(m2) == Abs(m1)
  {
    ApplyRefines(m, Restart(today));
    ApplyRefines(Startup(Shutdown(m), today), Restart(today));
  }
}
