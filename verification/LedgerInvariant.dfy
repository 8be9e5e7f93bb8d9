/** The invariant of the ledger machine over memory and database, kept by every operation. */
module LedgerInvariant {
  import opened Calendar
  import opened Ledger
  import opened LedgerTables

  /** The days whose history and event rows must be up to date: all but the current one. */
  function Closed(m: Machine): seq<Day>
    requires m.month != []
  {
    m.oldMonth + m.month[..|m.month| - 1]
  }

  function Current(m: Machine): Day
    requires m.month != []
  {
    LastDay(m.month)
  }

  predicate InMemory(m: Machine, day: nat) {
    exists d :: d in Days(m) && d.epoch == day
  }

  /** Memory is ascending, `month` is non-empty and within one calendar month, `oldMonth` before it. */
  predicate Shape(m: Machine) {
    && m.month != []
    && Ascending(Days(m))
    && (forall d :: d in Days(m) ==> d.epoch >= 1)
    && (forall d :: d in m.month ==> MonthOf(d.epoch) == MonthOf(Current(m).epoch))
    && (forall d :: d in m.oldMonth ==> MonthOf(d.epoch) < MonthOf(Current(m).epoch))
  }

  /** The tables read back exactly this day. */
  predicate Mirrors(t: Tables, d: Day) {
    d.epoch in t.history && LoadDay(t, d.epoch) == d
  }

  predicate Mirrored(m: Machine)
    requires m.month != []
  {
    forall d :: d in Closed(m) ==> Mirrors(m.tables, d)
  }

  /** A recorded day is in memory, or older than everything in memory and than the month before. */
  predicate Placed(m: Machine, day: nat)
    requires m.month != []
  {
    || InMemory(m, day)
    || (day < Days(m)[0].epoch && MonthOf(day) < MonthOf(Current(m).epoch) - 1)
  }

  predicate Complete(m: Machine)
    requires m.month != []
  {
    forall day :: day in m.tables.history ==> Placed(m, day)
  }

  predicate Inv(m: Machine) {
    && Shape(m)
    && Mirrored(m)
    && Complete(m)
    && TablesOk(m.tables, Current(m).epoch)
    && m.tables.session.Some?
  }

  lemma DaysSplit(m: Machine)
    requires m.month != []
    ensures Days(m) == Closed(m) + [Current(m)]
    ensures m.month == m.month[..|m.month| - 1] + [Current(m)]
  {
  }

  lemma ClosedBefore(m: Machine)
    requires Shape(m)
    ensures forall d :: d in Closed(m) ==> d.epoch < Current(m).epoch
  {
    DaysSplit(m);
    forall i | 0 <= i < |Closed(m)|
      ensures Closed(m)[i].epoch < Current(m).epoch
    {
      assert Closed(m)[i] == Days(m)[i];
      assert Current(m) == Days(m)[|Closed(m)|];
    }
  }

  lemma CurrentInMemory(m: Machine)
    requires m.month != []
    ensures Current(m) in Days(m) && InMemory(m, Current(m).epoch)
  {
    DaysSplit(m);
  }

  // ---------------------------------------------------------------------------------------------
  // Steps that replace only the current day, the session, or the session row
  // ---------------------------------------------------------------------------------------------

  function WithCurrent(m: Machine, d: Day): Machine
    requires m.month != []
  {
    m.(month := m.month[|m.month| - 1 := d])
  }

  lemma InvWithCurrent(m: Machine, d: Day, s: Session)
    requires Inv(m) && d.epoch == Current(m).epoch
    ensures Inv(WithCurrent(m, d).(session := s))
  {
    var m' := WithCurrent(m, d).(session := s);
    DaysSplit(m);
    DaysSplit(m');
    assert Closed(m') == Closed(m);
    assert Days(m') == Closed(m) + [d];
    assert forall i :: 0 <= i < |Days(m)| ==> Days(m')[i].epoch == Days(m)[i].epoch;
    forall i | 0 <= i < |m'.month|
      ensures MonthOf(m'.month[i].epoch) == MonthOf(d.epoch)
    {
      assert m.month[i] in m.month;
    }
    forall x | x in Days(m')
      ensures x.epoch >= 1
    {
      if x == d {
        CurrentInMemory(m);
      } else {
        assert x in Closed(m);
        assert x in Days(m);
      }
    }
    forall day | day in m'.tables.history
      ensures Placed(m', day)
    {
      assert Placed(m, day);
      if InMemory(m, day) {
        var i :| 0 <= i < |Days(m)| && Days(m)[i].epoch == day;
        assert Days(m')[i] in Days(m') && Days(m')[i].epoch == day;
      }
    }
  }

  /** Tables that read back the same days keep the invariant. */
  lemma InvSameDays(m: Machine, t: Tables)
    requires Inv(m)
    requires t.history == m.tables.history
    requires forall r :: r in t.events ==> r in m.tables.events
    requires t.session.Some? && 1 <= t.session.value.day <= Current(m).epoch
    requires forall d :: d in Closed(m) ==> LoadDay(t, d.epoch) == LoadDay(m.tables, d.epoch)
    ensures Inv(m.(tables := t))
  {
    var m' := m.(tables := t);
    forall d | d in Closed(m')
      ensures Mirrors(t, d)
    {
      assert Mirrors(m.tables, d);
    }
    forall day | day in t.history
      ensures Placed(m', day)
    {
      assert Placed(m, day);
    }
  }

  lemma InvSessionRow(m: Machine, s: Session)
    requires Inv(m)
    ensures Inv(m.(tables := SaveSession(m.tables, Current(m).epoch, s)))
  {
    CurrentInMemory(m);
    InvSameDays(m, SaveSession(m.tables, Current(m).epoch, s));
  }

  lemma InvHistoryRow(m: Machine)
    requires Inv(m)
    ensures Inv(m.(tables := SaveHistory(m.tables, Current(m))))
  {
    var m' := m.(tables := SaveHistory(m.tables, Current(m)));
    CurrentInMemory(m);
    ClosedBefore(m);
    forall d | d in Closed(m')
      ensures Mirrors(m'.tables, d)
    {
      assert Mirrors(m.tables, d);
    }
    forall day | day in m'.tables.history
      ensures Placed(m', day)
    {
      if day != Current(m).epoch {
        assert Placed(m, day);
      }
    }
  }

  lemma ClosedMirrored(m: Machine)
    requires Inv(m)
    ensures forall d :: d in Closed(m) ==> Mirrors(SaveDay(m.tables, Current(m)), d)
  {
    ClosedBefore(m);
    forall d | d in Closed(m)
      ensures Mirrors(SaveDay(m.tables, Current(m)), d)
    {
      assert Mirrors(m.tables, d);
      SavedDayOthers(m.tables, Current(m), d.epoch);
    }
  }

  lemma InvSaveDay(m: Machine)
    requires Inv(m)
    ensures Inv(m.(tables := SaveDay(m.tables, Current(m))))
    ensures Mirrors(SaveDay(m.tables, Current(m)), Current(m))
  {
    var c := Current(m);
    var m' := m.(tables := SaveDay(m.tables, c));
    CurrentInMemory(m);
    SavedDay(m.tables, c);
    ClosedMirrored(m);
    forall day | day in m'.tables.history
      ensures Placed(m', day)
    {
      if day != c.epoch {
        assert Placed(m, day);
      }
    }
    FilteredRows(m.tables.events, c.epoch);
    RowsUpToDays(c, CHANNELS);
  }

  // ---------------------------------------------------------------------------------------------
  // Rolling over to a new day or month
  // ---------------------------------------------------------------------------------------------

  lemma AscendingAppend(days: seq<Day>, d: Day)
    requires Ascending(days) && forall x :: x in days ==> x.epoch < d.epoch
    ensures Ascending(days + [d])
  {
  }

  /** Everything in memory is at most the current day. */
  lemma NotAfterCurrent(m: Machine)
    requires Shape(m)
    ensures forall d :: d in Days(m) ==> d.epoch <= Current(m).epoch
  {
    DaysSplit(m);
    ClosedBefore(m);
  }

  lemma NewDayShape(m: Machine, d: Day)
    requires Shape(m) && d.epoch > Current(m).epoch && MonthOf(d.epoch) == MonthOf(Current(m).epoch)
    ensures Shape(m.(month := m.month + [d]))
  {
    NotAfterCurrent(m);
    AscendingAppend(Days(m), d);
    assert Days(m.(month := m.month + [d])) == Days(m) + [d];
  }

  /** A new day in the same month. */
  lemma InvNewDay(m: Machine, today: nat)
    requires Inv(m) && Mirrors(m.tables, Current(m))
    requires today > Current(m).epoch && MonthOf(today) == MonthOf(Current(m).epoch)
    ensures Inv(m.(month := m.month + [EmptyDay(today)]))
  {
    var d := EmptyDay(today);
    var m' := m.(month := m.month + [d]);
    NewDayShape(m, d);
    DaysSplit(m);
    assert Closed(m') == Days(m);
    assert Days(m') == Days(m) + [d];
    forall day | day in m'.tables.history
      ensures Placed(m', day)
    {
      assert Placed(m, day);
      assert InMemory(m, day) ==> InMemory(m', day);
    }
  }

  lemma AscendingTail(a: seq<Day>, b: seq<Day>)
    requires Ascending(a + b)
    ensures Ascending(b)
  {
    forall i, j | 0 <= i < j < |b|
      ensures b[i].epoch < b[j].epoch
    {
      assert (a + b)[|a| + i] == b[i] && (a + b)[|a| + j] == b[j];
    }
  }

  lemma NewMonthShape(m: Machine, d: Day)
    requires Shape(m) && d.epoch > Current(m).epoch && MonthOf(d.epoch) > MonthOf(Current(m).epoch)
    ensures Shape(m.(month := [d], oldMonth := m.month))
  {
    NotAfterCurrent(m);
    assert forall x :: x in m.month ==> x in Days(m);
    AscendingTail(m.oldMonth, m.month);
    AscendingAppend(m.month, d);
  }

  /** A new day in a later month: what was current becomes the old month. */
  lemma InvNewMonth(m: Machine, today: nat)
    requires Inv(m) && Mirrors(m.tables, Current(m))
    requires today > Current(m).epoch && MonthOf(today) > MonthOf(Current(m).epoch)
    ensures Inv(m.(month := [EmptyDay(today)], oldMonth := m.month))
  {
    var d := EmptyDay(today);
    var m' := m.(month := [d], oldMonth := m.month);
    NewMonthShape(m, d);
    DaysSplit(m);
    assert Closed(m') == m.month;
    forall x | x in Closed(m')
      ensures Mirrors(m'.tables, x)
    {
      assert x in Closed(m) || x == Current(m);
    }
    forall day | day in m'.tables.history
      ensures Placed(m', day)
    {
      PlacedInNewMonth(m, d, day);
    }
  }

  lemma PlacedInNewMonth(m: Machine, d: Day, day: nat)
    requires Shape(m) && Placed(m, day)
    requires MonthOf(d.epoch) > MonthOf(Current(m).epoch)
    ensures Placed(m.(month := [d], oldMonth := m.month), day)
  {
    var m' := m.(month := [d], oldMonth := m.month);
    assert Days(m') == m.month + [d];
    if InMemory(m, day) {
      var x :| x in Days(m) && x.epoch == day;
      if x in m.month {
        assert x in Days(m');
      } else {
        OldBeforeMonth(m, x);
      }
    } else {
      FirstNotAfter(m);
    }
  }

  lemma OldBeforeMonth(m: Machine, d: Day)
    requires Shape(m) && d in m.oldMonth
    ensures d.epoch < m.month[0].epoch
  {
    var i :| 0 <= i < |m.oldMonth| && m.oldMonth[i] == d;
    assert Days(m)[i] == d && Days(m)[|m.oldMonth|] == m.month[0];
  }

  lemma FirstNotAfter(m: Machine)
    requires Shape(m)
    ensures Days(m)[0].epoch <= m.month[0].epoch
  {
    if m.oldMonth != [] {
      assert Days(m)[0] == m.oldMonth[0];
      OldBeforeMonth(m, m.oldMonth[0]);
    }
  }

  lemma FirstIsLeast(m: Machine)
    requires Shape(m)
    ensures forall d :: d in Days(m) ==> Days(m)[0].epoch <= d.epoch
  {
  }

  /** Deleting the event rows older than the month that leaves memory. */
  lemma InvTrim(m: Machine)
    requires Inv(m) && m.oldMonth != []
    ensures Inv(m.(tables := TrimEvents(m.tables, m.oldMonth[0].epoch)))
    ensures Mirrors(m.tables, Current(m)) ==> Mirrors(TrimEvents(m.tables, m.oldMonth[0].epoch), Current(m))
  {
    var first := m.oldMonth[0].epoch;
    assert Days(m)[0] == m.oldMonth[0];
    FirstIsLeast(m);
    DaysSplit(m);
    CurrentInMemory(m);
    TrimmedDay(m.tables, first, Current(m).epoch);
    forall d | d in Closed(m)
      ensures LoadDay(TrimEvents(m.tables, first), d.epoch) == LoadDay(m.tables, d.epoch)
    {
      assert d in Days(m);
      TrimmedDay(m.tables, first, d.epoch);
    }
    FilteredRows(m.tables.events, first);
    InvSameDays(m, TrimEvents(m.tables, first));
  }
}
