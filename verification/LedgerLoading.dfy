/** Facts about loading days one row at a time. */
module LedgerLoading {
  import opened Calendar
  import opened Options
  import opened Ledger
  import opened LedgerTables

  /** A day of the given month as the tables have it. */
  predicate Known(t: Tables, month: int, d: Day) {
    d.epoch in t.history && MonthOf(d.epoch) == month && d == LoadDay(t, d.epoch)
  }

  /** The list holds exactly the recorded days of one month, ascending, as the tables have them. */
  ghost predicate Reads(days: seq<Day>, t: Tables, month: int) {
    Ascending(days) && forall d :: d in days <==> Known(t, month, d)
  }

  /** The tables differ at most in one day, which the later ones have. */
  ghost predicate DifferAt(t: Tables, t': Tables, day: nat) {
    && t'.history.Keys == t.history.Keys + {day}
    && (forall x: nat :: x != day ==> LoadDay(t', x) == LoadDay(t, x))
  }

  /** What `find_or_create_day` returns: the list with the day in it, and where it is. */
  ghost predicate Found(days: seq<Day>, epoch: nat, days': seq<Day>, at: nat) {
    && Ascending(days') && at < |days'| && days'[at].epoch == epoch
    && (forall d :: d in days' && d.epoch != epoch <==> d in days && d.epoch != epoch)
    && (days'[at] in days || (days'[at] == EmptyDay(epoch) && forall d :: d in days ==> d.epoch != epoch))
  }

  lemma OnlyAt(days: seq<Day>, at: nat, d: Day)
    requires Ascending(days) && at < |days| && d in days && d.epoch == days[at].epoch
    ensures d == days[at]
  {
  }

  /** Storing the new version of a day into the list where it was found. */
  lemma StoreDay(days: seq<Day>, t: Tables, month: int, epoch: nat, days': seq<Day>, at: nat, d: Day, t': Tables)
    requires Reads(days, t, month) && Found(days, epoch, days', at)
    requires DifferAt(t, t', epoch) && MonthOf(epoch) == month && d == LoadDay(t', epoch)
    ensures Reads(days'[at := d], t', month)
  {
    var result := days'[at := d];
    forall i, j | 0 <= i < j < |result|
      ensures result[i].epoch < result[j].epoch
    {
      assert days'[i].epoch < days'[j].epoch;
    }
    forall x
      ensures x in result <==> Known(t', month, x)
    {
      if x.epoch == epoch {
        assert result[at] == d;
        if x in result {
          OnlyAt(result, at, x);
        }
      } else {
        StoredOther(days', at, d, x);
        assert x in days' <==> x in days;
        assert Known(t, month, x) <==> Known(t', month, x);
      }
    }
  }

  lemma StoredOther(days: seq<Day>, at: nat, d: Day, x: Day)
    requires at < |days| && x.epoch != days[at].epoch && x.epoch != d.epoch
    ensures x in days[at := d] <==> x in days
  {
    if x in days {
      var i :| 0 <= i < |days| && days[i] == x;
      assert days[at := d][i] == x;
    }
  }

  /** A day of another month leaves the list as it is. */
  lemma OtherMonth(days: seq<Day>, t: Tables, month: int, epoch: nat, t': Tables)
    requires Reads(days, t, month) && DifferAt(t, t', epoch) && MonthOf(epoch) != month
    ensures Reads(days, t', month)
  {
    forall x
      ensures x in days <==> Known(t', month, x)
    {
      assert x in days <==> Known(t, month, x);
    }
  }

  lemma NoRowsYet(history: map<nat, Times>, day: nat)
    requires day in history
    ensures LoadDay(Tables(history, [], None), day) == Day(day, history[day], NoEvents(), NoEvents())
  {
    assert Lists([], day, Start) == NoEvents();
    assert Lists([], day, Stop) == NoEvents();
  }

  /** One more history row. */
  lemma NextHistoryRow(history: map<nat, Times>, day: nat, times: Times)
    ensures DifferAt(Tables(history, [], None), Tables(history[day := times], [], None), day)
  {
  }

  /** One more event row appends its second to one list of its day. */
  lemma NextEventRow(t: Tables, n: nat)
    requires n < |t.events| && t.events[n].day in t.history
    ensures var r := t.events[n];
            var before, after := t.(events := t.events[..n]), t.(events := t.events[..n + 1]);
            var d := LoadDay(before, r.day);
            && DifferAt(before, after, r.day)
            && LoadDay(after, r.day)
               == if r.kind == Start then d.(starts := d.starts[r.channel := d.starts[r.channel] + [r.second]])
                  else d.(stops := d.stops[r.channel := d.stops[r.channel] + [r.second]])
  {
    var r := t.events[n];
    var before, after := t.(events := t.events[..n]), t.(events := t.events[..n + 1]);
    assert after.events[..|after.events| - 1] == before.events;
    forall x: nat, ch: Channel, kind: EventKind
      ensures Select(after.events, x, ch, kind)
           == Select(before.events, x, ch, kind)
              + if r.day == x && r.channel == ch && r.kind == kind then [r.second] else []
    {
    }
    forall x: nat | x != r.day
      ensures LoadDay(after, x) == LoadDay(before, x)
    {
      assert Lists(after.events, x, Start) == Lists(before.events, x, Start);
      assert Lists(after.events, x, Stop) == Lists(before.events, x, Stop);
    }
    assert t.history.Keys == t.history.Keys + {r.day};
    NextEventLists(t, n);
  }

  lemma NextEventLists(t: Tables, n: nat)
    requires n < |t.events|
    ensures var r, rows, rows' := t.events[n], t.events[..n], t.events[..n + 1];
            var list := Lists(rows, r.day, r.kind);
            && Lists(rows', r.day, r.kind) == list[r.channel := list[r.channel] + [r.second]]
            && (forall kind :: kind != r.kind ==> Lists(rows', r.day, kind) == Lists(rows, r.day, kind))
  {
    var rows, rows' := t.events[..n], t.events[..n + 1];
    assert rows'[..|rows'| - 1] == rows;
  }

  // ---------------------------------------------------------------------------------------------
  // Dropping stale rows
  // ---------------------------------------------------------------------------------------------

  /** The rows whose day is not listed. */
  function WithoutDays(rows: seq<EventRow>, days: seq<nat>): seq<EventRow> {
    if rows == [] then []
    else
      var rest := WithoutDays(rows[..|rows| - 1], days);
      if rows[|rows| - 1].day in days then rest else rest + [rows[|rows| - 1]]
  }

  lemma {:induction false} WithoutAppend(rows: seq<EventRow>, row: EventRow, day: nat)
    ensures WithoutDay(rows + [row], day) == WithoutDay(rows, day) + if row.day == day then [] else [row]
  {
    assert (rows + [row])[..|rows + [row]| - 1] == rows;
  }

  lemma {:induction false} WithoutOneMore(rows: seq<EventRow>, days: seq<nat>, day: nat)
    ensures WithoutDay(WithoutDays(rows, days), day) == WithoutDays(rows, days + [day])
  {
    if rows != [] {
      var init, last := rows[..|rows| - 1], rows[|rows| - 1];
      WithoutOneMore(init, days, day);
      WithoutAppend(WithoutDays(init, days), last, day);
    }
  }

  lemma {:induction false} WithoutNone(rows: seq<EventRow>)
    ensures WithoutDays(rows, []) == rows
  {
    if rows != [] {
      WithoutNone(rows[..|rows| - 1]);
      assert rows == rows[..|rows| - 1] + [rows[|rows| - 1]];
    }
  }

  lemma {:induction false} WithoutStale(rows: seq<EventRow>, days: seq<nat>, today: nat)
    requires forall r :: r in rows ==> (r.day in days <==> !InWindow(r.day, today))
    ensures WithoutDays(rows, days) == WindowRows(rows, today)
  {
    if rows != [] {
      assert rows[|rows| - 1] in rows;
      WithoutStale(rows[..|rows| - 1], days, today);
    }
  }

  // ---------------------------------------------------------------------------------------------
  // The loaded months
  // ---------------------------------------------------------------------------------------------

  lemma LoadedOldMonth(days: seq<Day>, t: Tables, today: nat)
    requires TablesOk(t, today) && Reads(days, t, MonthOf(today) - 1)
    ensures days == LoadMonth(t, MonthOf(today) - 1, today)
  {
    LoadMonthDays(t, MonthOf(today) - 1, today);
    SameDays(days, LoadMonth(t, MonthOf(today) - 1, today));
  }

  /** The current month, with today pushed on top when it is not recorded yet. */
  lemma LoadedMonth(days: seq<Day>, t: Tables, today: nat)
    requires TablesOk(t, today) && Reads(days, t, MonthOf(today))
    ensures (if days != [] && days[|days| - 1].epoch == today then days else days + [EmptyDay(today)])
         == LoadMonth(t, MonthOf(today), today) + [LoadDay(t, today)]
  {
    var before := LoadMonth(t, MonthOf(today), today);
    LoadMonthDays(t, MonthOf(today), today);
    if days != [] && days[|days| - 1].epoch == today {
      var last := days[|days| - 1];
      assert last in days;
      WithoutLast(days);
      var init := days[..|days| - 1];
      forall d
        ensures d in init <==> d in before
      {
        assert d in days <==> Known(t, MonthOf(today), d);
        assert Known(t, MonthOf(today), last);
        assert d in before <==> Loaded(t, MonthOf(today), today, d);
      }
      SameDays(init, before);
      assert days == init + [last];
    } else {
      forall d | d in days
        ensures d.epoch < today
      {
        LastIsGreatest(days, d);
        assert days[|days| - 1] in days;
        assert Known(t, MonthOf(today), days[|days| - 1]);
      }
      assert LoadDay(t, today) in days <==> Known(t, MonthOf(today), LoadDay(t, today));
      UnrecordedDay(t, today);
      SameDays(days, before);
    }
  }

  /** Closing a session into its day: the day found in memory, with the seconds added, is the day the
      tables have afterwards. */
  lemma ClosedDay(t: Tables, row: SessionRow, today: nat, days: seq<Day>, days': seq<Day>, at: nat)
    requires TablesOk(t, today) && Reads(days, t, MonthOf(row.day)) && Found(days, row.day, days', at)
    ensures var d := days'[at].(times := Plus(days'[at].times, row.times));
            && DifferAt(t, AddHistory(t, row.day, row.times), row.day)
            && d == LoadDay(AddHistory(t, row.day, row.times), row.day)
            && SaveHistory(t, d) == AddHistory(t, row.day, row.times)
  {
    if row.day in t.history {
      assert Known(t, MonthOf(row.day), LoadDay(t, row.day));
      assert days'[at] in days;
    } else {
      UnrecordedDay(t, row.day);
      assert Plus(Zero(), row.times) == row.times;
    }
  }

  lemma AddedElsewhere(t: Tables, row: SessionRow)
    ensures DifferAt(t, AddHistory(t, row.day, row.times), row.day)
  {
  }
}
