/** What the database statements do to the days and event lists that are read back. */
module LedgerTables {
  import opened Calendar
  import opened Ledger

  // ---------------------------------------------------------------------------------------------
  // Event rows
  // ---------------------------------------------------------------------------------------------

  lemma {:induction false} SelectConcat(a: seq<EventRow>, b: seq<EventRow>, day: nat, ch: Channel, kind: EventKind)
    ensures Select(a + b, day, ch, kind) == Select(a, day, ch, kind) + Select(b, day, ch, kind)
  {
    if b == [] {
      assert a + b == a;
    } else {
      assert (a + b)[..|a + b| - 1] == a + b[..|b| - 1];
      SelectConcat(a, b[..|b| - 1], day, ch, kind);
    }
  }

  lemma {:induction false} SelectWithout(rows: seq<EventRow>, gone: nat, day: nat, ch: Channel, kind: EventKind)
    ensures Select(WithoutDay(rows, gone), day, ch, kind) == if day == gone then [] else Select(rows, day, ch, kind)
  {
    if rows != [] {
      var init := rows[..|rows| - 1];
      SelectWithout(init, gone, day, ch, kind);
      SelectConcat(WithoutDay(init, gone), [rows[|rows| - 1]], day, ch, kind);
    }
  }

  lemma {:induction false} SelectFrom(rows: seq<EventRow>, threshold: nat, day: nat, ch: Channel, kind: EventKind)
    requires threshold <= day
    ensures Select(FromDay(rows, threshold), day, ch, kind) == Select(rows, day, ch, kind)
  {
    if rows != [] {
      var init := rows[..|rows| - 1];
      SelectFrom(init, threshold, day, ch, kind);
      SelectConcat(FromDay(init, threshold), [rows[|rows| - 1]], day, ch, kind);
    }
  }

  lemma {:induction false} SelectWindow(rows: seq<EventRow>, today: nat, day: nat, ch: Channel, kind: EventKind)
    requires InWindow(day, today)
    ensures Select(WindowRows(rows, today), day, ch, kind) == Select(rows, day, ch, kind)
  {
    if rows != [] {
      var init := rows[..|rows| - 1];
      SelectWindow(init, today, day, ch, kind);
      SelectConcat(WindowRows(init, today), [rows[|rows| - 1]], day, ch, kind);
    }
  }

  lemma {:induction false} SelectRows(d: nat, c: Channel, k: EventKind, seconds: seq<int>,
                                      day: nat, ch: Channel, kind: EventKind)
    ensures Select(Rows(d, c, k, seconds), day, ch, kind)
         == if d == day && c == ch && k == kind then seconds else []
  {
    var rows := Rows(d, c, k, seconds);
    if seconds != [] {
      var init := seconds[..|seconds| - 1];
      assert rows[..|rows| - 1] == Rows(d, c, k, init);
      SelectRows(d, c, k, init, day, ch, kind);
      assert seconds == init + [seconds[|seconds| - 1]];
    }
  }

  lemma {:induction false} SelectRowsUpTo(d: Day, n: nat, day: nat, ch: Channel, kind: EventKind)
    requires n <= CHANNELS
    ensures Select(RowsUpTo(d, n), day, ch, kind)
         == if day == d.epoch && ch < n then (if kind == Start then d.starts else d.stops)[ch] else []
  {
    if n > 0 {
      SelectRowsUpTo(d, n - 1, day, ch, kind);
      var starts, stops := Rows(d.epoch, n - 1, Start, d.starts[n - 1]), Rows(d.epoch, n - 1, Stop, d.stops[n - 1]);
      SelectConcat(RowsUpTo(d, n - 1) + starts, stops, day, ch, kind);
      SelectConcat(RowsUpTo(d, n - 1), starts, day, ch, kind);
      SelectRows(d.epoch, n - 1, Start, d.starts[n - 1], day, ch, kind);
      SelectRows(d.epoch, n - 1, Stop, d.stops[n - 1], day, ch, kind);
    }
  }

  lemma {:induction false} RowsUpToDays(d: Day, n: nat)
    requires n <= CHANNELS
    ensures forall r :: r in RowsUpTo(d, n) ==> r.day == d.epoch
  {
    if n > 0 {
      RowsUpToDays(d, n - 1);
    }
  }

  lemma {:induction false} FilteredRows(rows: seq<EventRow>, day: nat)
    ensures forall r :: r in WithoutDay(rows, day) ==> r in rows
    ensures forall r :: r in FromDay(rows, day) ==> r in rows
    ensures forall r :: r in WindowRows(rows, day) ==> r in rows
  {
    if rows != [] {
      FilteredRows(rows[..|rows| - 1], day);
    }
  }

  // ---------------------------------------------------------------------------------------------
  // Days read back
  // ---------------------------------------------------------------------------------------------

  /** Saving a day makes the tables read back exactly that day. */
  lemma SavedDay(t: Tables, d: Day)
    ensures LoadDay(SaveDay(t, d), d.epoch) == d
  {
    var rows := WithoutDay(t.events, d.epoch);
    forall ch: Channel, kind: EventKind
      ensures Select(SaveDay(t, d).events, d.epoch, ch, kind) == (if kind == Start then d.starts else d.stops)[ch]
    {
      SelectConcat(rows, RowsUpTo(d, CHANNELS), d.epoch, ch, kind);
      SelectWithout(t.events, d.epoch, d.epoch, ch, kind);
      SelectRowsUpTo(d, CHANNELS, d.epoch, ch, kind);
    }
    assert Lists(SaveDay(t, d).events, d.epoch, Start) == d.starts;
    assert Lists(SaveDay(t, d).events, d.epoch, Stop) == d.stops;
  }

  lemma SavedDayOthers(t: Tables, d: Day, day: nat)
    requires day != d.epoch
    ensures LoadDay(SaveDay(t, d), day) == LoadDay(t, day)
  {
    var rows := WithoutDay(t.events, d.epoch);
    forall ch: Channel, kind: EventKind
      ensures Select(SaveDay(t, d).events, day, ch, kind) == Select(t.events, day, ch, kind)
    {
      SelectConcat(rows, RowsUpTo(d, CHANNELS), day, ch, kind);
      SelectWithout(t.events, d.epoch, day, ch, kind);
      SelectRowsUpTo(d, CHANNELS, day, ch, kind);
    }
    assert Lists(SaveDay(t, d).events, day, Start) == Lists(t.events, day, Start);
    assert Lists(SaveDay(t, d).events, day, Stop) == Lists(t.events, day, Stop);
  }

  lemma TrimmedDay(t: Tables, threshold: nat, day: nat)
    requires threshold <= day
    ensures LoadDay(TrimEvents(t, threshold), day) == LoadDay(t, day)
  {
    forall ch: Channel, kind: EventKind
      ensures Select(FromDay(t.events, threshold), day, ch, kind) == Select(t.events, day, ch, kind)
    {
      SelectFrom(t.events, threshold, day, ch, kind);
    }
    assert Lists(FromDay(t.events, threshold), day, Start) == Lists(t.events, day, Start);
    assert Lists(FromDay(t.events, threshold), day, Stop) == Lists(t.events, day, Stop);
  }

  lemma WindowDay(t: Tables, today: nat, day: nat)
    requires InWindow(day, today)
    ensures LoadDay(t.(events := WindowRows(t.events, today)), day) == LoadDay(t, day)
  {
    forall ch: Channel, kind: EventKind
      ensures Select(WindowRows(t.events, today), day, ch, kind) == Select(t.events, day, ch, kind)
    {
      SelectWindow(t.events, today, day, ch, kind);
    }
    assert Lists(WindowRows(t.events, today), day, Start) == Lists(t.events, day, Start);
    assert Lists(WindowRows(t.events, today), day, Stop) == Lists(t.events, day, Stop);
  }

  /** A day without rows reads back empty. */
  lemma {:induction false} NoRows(rows: seq<EventRow>, day: nat, ch: Channel, kind: EventKind)
    requires forall r :: r in rows ==> r.day != day
    ensures Select(rows, day, ch, kind) == []
  {
    if rows != [] {
      NoRows(rows[..|rows| - 1], day, ch, kind);
    }
  }

  lemma UnrecordedDay(t: Tables, day: nat)
    requires day !in t.history && forall r :: r in t.events ==> r.day in t.history
    ensures LoadDay(t, day) == EmptyDay(day)
  {
    forall ch: Channel, kind: EventKind
      ensures Select(t.events, day, ch, kind) == []
    {
      NoRows(t.events, day, ch, kind);
    }
    assert Lists(t.events, day, Start) == NoEvents();
    assert Lists(t.events, day, Stop) == NoEvents();
  }

  // ---------------------------------------------------------------------------------------------
  // Months read back
  // ---------------------------------------------------------------------------------------------

  predicate Ascending(days: seq<Day>) {
    forall i, j :: 0 <= i < j < |days| ==> days[i].epoch < days[j].epoch
  }

  predicate Loaded(t: Tables, month: int, n: nat, d: Day) {
    d.epoch < n && d.epoch in t.history && MonthOf(d.epoch) == month && d == LoadDay(t, d.epoch)
  }

  lemma {:induction false} LoadMonthDays(t: Tables, month: int, n: nat)
    ensures Ascending(LoadMonth(t, month, n))
    ensures forall d :: d in LoadMonth(t, month, n) <==> Loaded(t, month, n, d)
  {
    if n > 0 {
      LoadMonthDays(t, month, n - 1);
      var before, days := LoadMonth(t, month, n - 1), LoadMonth(t, month, n);
      forall i | 0 <= i < |before|
        ensures before[i].epoch < n - 1
      {
        assert before[i] in before;
      }
      forall d
        ensures d in days <==> Loaded(t, month, n, d)
      {
        if d.epoch == n - 1 {
          assert d !in before;
        } else {
          assert d in days <==> d in before;
        }
      }
    }
  }

  /** Ascending lists of the same days are equal. */
  lemma {:induction false} SameDays(a: seq<Day>, b: seq<Day>)
    requires Ascending(a) && Ascending(b)
    requires forall d :: d in a <==> d in b
    ensures a == b
  {
    if a == [] {
      if b != [] {
        FirstIsIn(b);
      }
    } else {
      FirstIsIn(a);
      var x, y := a[|a| - 1], b[|b| - 1];
      LastIsGreatest(a, y);
      LastIsGreatest(b, x);
      assert x.epoch == y.epoch;
      SameEpoch(b, x);
      assert x == y;
      var a', b' := a[..|a| - 1], b[..|b| - 1];
      WithoutLast(a);
      WithoutLast(b);
      forall d
        ensures d in a' <==> d in b'
      {
        assert d in a' <==> d in a && d != x;
        assert d in b' <==> d in b && d != x;
      }
      SameDays(a', b');
      assert a == a' + [x] && b == b' + [y];
    }
  }

  lemma FirstIsIn(days: seq<Day>)
    requires days != []
    ensures exists d :: d in days
  {
    assert days[0] in days;
  }

  lemma LastIsGreatest(days: seq<Day>, d: Day)
    requires Ascending(days) && days != [] && (d in days)
    ensures d.epoch <= days[|days| - 1].epoch
  {
  }

  lemma SameEpoch(days: seq<Day>, d: Day)
    requires Ascending(days) && days != [] && d in days && d.epoch == days[|days| - 1].epoch
    ensures d == days[|days| - 1]
  {
  }

  lemma WithoutLast(days: seq<Day>)
    requires Ascending(days) && days != []
    ensures forall d :: d in days[..|days| - 1] <==> d in days && d != days[|days| - 1]
  {
    var last := days[|days| - 1];
    assert days == days[..|days| - 1] + [last];
  }
}
