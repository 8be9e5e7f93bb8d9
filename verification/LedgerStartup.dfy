/** The writes a device commits one after the other while its ledger is loaded. */
module LedgerStartup {
  import opened Calendar
  import opened Ledger
  import opened LedgerRuns
  import opened LedgerLoading

  /** The days of the event rows outside the window, once for every row. */
  function StaleDays(rows: seq<EventRow>, today: nat): seq<nat> {
    if rows == [] then []
    else
      var r, rest := rows[|rows| - 1], StaleDays(rows[..|rows| - 1], today);
      if InWindow(r.day, today) then rest else rest + [r.day]
  }

  lemma {:induction false} StaleRows(rows: seq<EventRow>, today: nat)
    ensures forall r :: r in rows ==> (r.day in StaleDays(rows, today) <==> !InWindow(r.day, today))
    ensures forall day :: day in StaleDays(rows, today) ==> !InWindow(day, today)
  {
    if rows != [] {
      var init := rows[..|rows| - 1];
      StaleRows(init, today);
      assert rows == init + [rows[|rows| - 1]];
    }
  }

  function Deletions(t: Tables, stale: seq<nat>): seq<Tables> {
    seq(|stale|, n requires 0 <= n < |stale| => t.(events := WithoutDays(t.events, stale[..n + 1])))
  }

  lemma DeletionsAppend(t: Tables, stale: seq<nat>, day: nat)
    ensures Deletions(t, stale + [day])
         == Deletions(t, stale) + [t.(events := WithoutDays(t.events, stale + [day]))]
  {
    forall n: nat | n < |stale|
      ensures Deletions(t, stale + [day])[n] == Deletions(t, stale)[n]
    {
      assert (stale + [day])[..n + 1] == stale[..n + 1];
    }
    assert (stale + [day])[..|stale| + 1] == stale + [day];
  }

  /** Every row that is deleted, then the session of an earlier day in the history, then the new session row. */
  function StartupCommits(t: Tables, today: nat): (c: seq<Tables>)
    ensures |c| > if Closes(t, today) then 1 else 0
  {
    Deletions(t, StaleDays(t.events, today)) + (if Closes(t, today) then [Prepared(t, today)] else [])
    + [Startup(t, today).tables]
  }

  /** What is loaded, with the session row written for today, is the started machine. */
  lemma Started(t: Tables, today: nat, month: seq<Day>, oldMonth: seq<Day>)
    requires month == LoadMonth(Prepared(t, today), MonthOf(today), today) + [LoadDay(Prepared(t, today), today)]
    requires oldMonth == LoadMonth(Prepared(t, today), MonthOf(today) - 1, today)
    ensures
      var s := RestoredSession(t, today);
      && Startup(t, today) == Machine(month, oldMonth, s, SaveSession(Prepared(t, today), today, s))
      && month != [] && LastDay(month).epoch == today
      && StartupCommits(t, today)
         == Deletions(t, StaleDays(t.events, today)) + (if Closes(t, today) then [Prepared(t, today)] else [])
            + [SaveSession(Prepared(t, today), today, s)]
  {
  }

  // ---------------------------------------------------------------------------------------------
  // Attempts that are cut off
  // ---------------------------------------------------------------------------------------------

  /** A start that is cut off after its `at`-th write. */
  datatype Attempt = Attempt(today: nat, at: nat)

  function Reached(t: Tables, s: Attempt): Tables {
    var c := [t] + StartupCommits(t, s.today);
    c[if s.at < |c| then s.at else |c| - 1]
  }

  /** Cut off where the old session is in the history and still in its own row. */
  predicate Between(t: Tables, s: Attempt) {
    Closes(t, s.today) && s.at == |StartupCommits(t, s.today)| - 1
  }

  predicate Finished(t: Tables, s: Attempt) {
    s.at >= |StartupCommits(t, s.today)|
  }

  /** Anywhere else the history and the session row are still what they were. */
  lemma ReachedState(t: Tables, s: Attempt)
    ensures Between(t, s) ==> Reached(t, s) == Prepared(t, s.today)
    ensures Finished(t, s) ==> Reached(t, s) == Startup(t, s.today).tables
    ensures !Between(t, s) && !Finished(t, s) ==>
              Reached(t, s) == t || Reached(t, s) in Deletions(t, StaleDays(t.events, s.today))
  {
  }

  lemma {:induction false} RowsLeft(rows: seq<EventRow>, days: seq<nat>)
    ensures forall r :: r in WithoutDays(rows, days) ==> r in rows
  {
    if rows != [] {
      RowsLeft(rows[..|rows| - 1], days);
    }
  }

  lemma Deleted(t: Tables, stale: seq<nat>, t': Tables)
    requires t' in Deletions(t, stale)
    ensures t'.history == t.history && t'.session == t.session && forall r :: r in t'.events ==> r in t.events
  {
    var n :| 0 <= n < |stale| && t' == Deletions(t, stale)[n];
    RowsLeft(t.events, stale[..n + 1]);
  }

  /** Whatever a cut-off start leaves can be started from. */
  lemma ReachedOk(t: Tables, s: Attempt)
    requires TablesOk(t, s.today) && s.today >= 1
    ensures TablesOk(Reached(t, s), s.today)
  {
    ReachedState(t, s);
    PreparedOk(t, s.today);
    if Finished(t, s) {
      StartedOk(t, s.today);
    } else if !Between(t, s) && Reached(t, s) != t {
      Deleted(t, StaleDays(t.events, s.today), Reached(t, s));
    }
  }

  lemma StartedOk(t: Tables, today: nat)
    requires TablesOk(t, today) && today >= 1
    ensures TablesOk(Startup(t, today).tables, today)
  {
    PreparedOk(t, today);
  }
}
