/** Crashes while a device starts: where they do no harm, and where they count a session twice. */
module LedgerCutStart {
  import opened Options
  import opened Ledger
  import opened LedgerInvariant
  import opened LedgerTables
  import opened LedgerBook
  import opened LedgerStartup
  import opened LedgerCrash

  lemma FinishedDurable(t: Tables, today: nat, day: nat, ch: Channel)
    requires TablesOk(t, today) && today >= 1
    ensures Durable(Startup(t, today).tables, day, ch) == Durable(t, day, ch)
  {
  }

  /** The seconds an attempt leaves twice in what recovery adds up: in the history and in their own row. */
  function Twice(t: Tables, s: Attempt, day: nat, ch: Channel): int {
    if Between(t, s) && day == t.session.value.day then t.session.value.times[ch] else 0
  }

  lemma AttemptAdds(t: Tables, s: Attempt, day: nat, ch: Channel)
    requires TablesOk(t, s.today) && s.today >= 1
    ensures Durable(Reached(t, s), day, ch) == Durable(t, day, ch) + Twice(t, s, day, ch)
  {
    if Finished(t, s) {
      ReachedState(t, s);
      FinishedDurable(t, s.today, day, ch);
    } else {
      ReachedHistory(t, s, day, ch);
    }
  }

  lemma ShownAfter(t: Tables, s: Attempt, today: nat, day: nat, ch: Channel)
    requires TablesOk(t, s.today) && 1 <= s.today <= today
    ensures Live(Abs(Startup(Reached(t, s), today)), day, ch)
         == Live(Abs(Startup(t, today)), day, ch) + Twice(t, s, day, ch)
  {
    ReachedOk(t, s);
    Recovered(Reached(t, s), today, day, ch);
    Recovered(t, today, day, ch);
    AttemptAdds(t, s, day, ch);
  }

  lemma {:induction false} SumMore(x: Account, a: Account, ch: Channel, at: nat, extra: int, n: nat)
    requires x.day == a.day
    requires forall day: nat :: Live(x, day, ch) == Live(a, day, ch) + if day == at then extra else 0
    ensures SumDays(x.book, ch, n) + (if x.day < n then x.open[ch] else 0)
         == SumDays(a.book, ch, n) + (if a.day < n then a.open[ch] else 0) + (if at < n then extra else 0)
  {
    if n > 0 {
      SumMore(x, a, ch, at, extra, n - 1);
      assert Live(x, n - 1, ch) == Live(a, n - 1, ch) + if n - 1 == at then extra else 0;
    }
  }

  lemma TotalMore(x: Account, a: Account, ch: Channel, at: nat, extra: int)
    requires x.day == a.day && (at <= a.day || extra == 0)
    requires forall day: nat :: Live(x, day, ch) == Live(a, day, ch) + if day == at then extra else 0
    ensures Total(x, ch) == Total(a, ch) + extra
  {
    SumMore(x, a, ch, at, extra, a.day + 1);
  }

  function TwiceAt(t: Tables, s: Attempt): nat {
    if Between(t, s) then t.session.value.day else 0
  }

  lemma AllShownAfter(t: Tables, s: Attempt, today: nat, ch: Channel)
    requires TablesOk(t, s.today) && 1 <= s.today <= today
    ensures
      var x, a := Abs(Startup(Reached(t, s), today)), Abs(Startup(t, today));
      forall day: nat ::
        Live(x, day, ch) == Live(a, day, ch) + if day == TwiceAt(t, s) then Twice(t, s, TwiceAt(t, s), ch) else 0
  {
    forall day: nat
      ensures Live(Abs(Startup(Reached(t, s), today)), day, ch)
           == Live(Abs(Startup(t, today)), day, ch) + if day == TwiceAt(t, s) then Twice(t, s, TwiceAt(t, s), ch) else 0
    {
      ShownAfter(t, s, today, day, ch);
    }
  }

  lemma StartsToday(t: Tables, today: nat)
    ensures Abs(Startup(t, today)).day == today
  {
  }

  /** What a device shows after an attempt to start that was cut off and a start that was not, against that
      start alone: the same, if and only if the attempt was not cut off between the two writes that close
      an earlier day's session or the session is zero; the session's seconds more otherwise. */
  lemma CutStartExactly(t: Tables, s: Attempt, today: nat, ch: Channel)
    requires TablesOk(t, s.today) && 1 <= s.today <= today
    ensures Total(Abs(Startup(Reached(t, s), today)), ch)
         == Total(Abs(Startup(t, today)), ch) + if Between(t, s) then t.session.value.times[ch] else 0
  {
    StartsToday(t, today);
    StartsToday(Reached(t, s), today);
    AllShownAfter(t, s, today, ch);
    TotalMore(Abs(Startup(Reached(t, s), today)), Abs(Startup(t, today)), ch, TwiceAt(t, s), Twice(t, s, TwiceAt(t, s), ch));
  }

  // ---------------------------------------------------------------------------------------------
  // A run
  // ---------------------------------------------------------------------------------------------

  function FiveHundred(): Times { seq(CHANNELS, _ => 500) }

  function Arrival(): Op { Put(10, 0, false, FiveHundred()) }

  /** On day 10 a new device receives 500 seconds and they are saved. On day 11 the server starts, is cut
      off behind the first of the two writes, and starts again. */
  function Unlucky(): seq<Event> {
    [Done(Arrival()), Crash(Save, 2, [Attempt(11, 1)], 11)]
  }

  function Kept(): Tables {
    Tables(map[10 := Zero()], [], Some(SessionRow(10, FiveHundred(), Mask(NoFlags()))))
  }

  lemma NewDeviceShape()
    ensures
      var m := NewDevice(10);
      && Current(m) == EmptyDay(10) && m.session == NoSession()
      && m.tables.history == map[] && m.tables.events == []
  {
    UnrecordedDay(Tables(map[], [], None), 10);
  }

  /** One rising packet starts no channel. */
  lemma ArrivalShape(m: Machine)
    requires m.month != [] && m.session == NoSession()
    ensures
      var m1 := Apply(m, Arrival());
      && m1.session.working == NoFlags() && m1.session.times == FiveHundred() && m1.tables == m.tables
      && LastDay(m1.month).times == LastDay(m.month).times && LastDay(m1.month).epoch == LastDay(m.month).epoch
  {
    forall ch: Channel
      ensures !StepAt(m.session, FiveHundred(), ch).working
    {
    }
    assert Apply(m, Arrival()).session.working == NoFlags();
  }

  lemma KeptTables()
    ensures Left(Apply(NewDevice(10), Arrival()), Save, 2) == Kept()
  {
    NewDeviceShape();
    ArrivalShape(NewDevice(10));
    SavedShape(Apply(NewDevice(10), Arrival()));
  }

  lemma SavedShape(m: Machine)
    requires m.month != []
    ensures
      var d := LastDay(m.month);
      Left(m, Save, 2) == Tables(m.tables.history[d.epoch := d.times], m.tables.events,
                                 Some(SessionRow(d.epoch, m.session.times, Mask(m.session.working))))
  {
  }

  lemma KeptCloses()
    ensures TablesOk(Kept(), 11) && Between(Kept(), Attempt(11, 1))
    ensures Tried(Kept(), [Attempt(11, 1)]) == Reached(Kept(), Attempt(11, 1))
  {
    assert StaleDays(Kept().events, 11) == [];
    assert [Attempt(11, 1)][1..] == [];
  }

  lemma KeptDay(day: nat, ch: Channel)
    ensures Live(Abs(Startup(Kept(), 11)), day, ch) == if day == 10 then 500 else 0
  {
    KeptCloses();
    Recovered(Kept(), 11, day, ch);
  }

  lemma OneDayTotal(x: Account, ch: Channel, at: nat, seconds: int)
    requires at <= x.day && forall day: nat :: Live(x, day, ch) == if day == at then seconds else 0
    ensures Total(x, ch) == seconds
  {
    var a := EmptyAccount(x.day);
    assert forall day: nat :: Live(a, day, ch) == 0;
    EmptyTotal(x.day, ch);
    TotalMore(x, a, ch, at, seconds);
  }

  /** A clean start on day 11 shows the 500 seconds. */
  lemma KeptTotal(ch: Channel)
    ensures Total(Abs(Startup(Kept(), 11)), ch) == 500
  {
    StartsToday(Kept(), 11);
    AllKeptDays(ch);
    OneDayTotal(Abs(Startup(Kept(), 11)), ch, 10, 500);
  }

  lemma AllKeptDays(ch: Channel)
    ensures forall day: nat :: Live(Abs(Startup(Kept(), 11)), day, ch) == if day == 10 then 500 else 0
  {
    forall day: nat
      ensures Live(Abs(Startup(Kept(), 11)), day, ch) == if day == 10 then 500 else 0
    {
      KeptDay(day, ch);
    }
  }

  lemma TwoEvents(m: Machine, e: Event, e': Event)
    requires m.month != []
    ensures CrashRun(m, [e, e']) == Happen(Happen(m, e), e')
  {
    assert [e, e'][1..] == [e'] && [e'][1..] == [];
    assert CrashRun(Happen(Happen(m, e), e'), []) == Happen(Happen(m, e), e');
    assert CrashRun(Happen(m, e), [e']) == Happen(Happen(m, e), e');
  }

  lemma UnluckyRun()
    ensures CrashRun(NewDevice(10), Unlucky()) == Startup(Reached(Kept(), Attempt(11, 1)), 11)
  {
    TwoEvents(NewDevice(10), Unlucky()[0], Unlucky()[1]);
    KeptTables();
    KeptCloses();
  }

  lemma UnluckyReceived(ch: Channel)
    ensures AllFair(EmptyAccount(10), Unlucky())
    ensures Received(10, 0, ch, WithoutCrashes(Unlucky())) == 500
  {
    var events, attempts := Unlucky(), [Attempt(11, 1)];
    assert events[1..][1..] == [] && attempts[1..] == [];
    assert WithoutCrashes(events[1..][1..]) == [];
    assert Restarts(attempts) == [Restart(11)];
    assert WithoutCrashes(events[1..]) == [Save, Restart(11), Restart(11)];
    var ops := [Arrival(), Save, Restart(11), Restart(11)];
    assert WithoutCrashes(events) == ops;
    assert ops[1..] == [Save, Restart(11), Restart(11)] && ops[1..][1..] == [Restart(11), Restart(11)];
    assert ops[1..][1..][1..] == [Restart(11)] && ops[1..][1..][1..][1..] == [];
    assert Received(11, 0, ch, [Restart(11)]) == 0;
    assert Received(10, 500, ch, [Restart(11), Restart(11)]) == 500;
    assert InOrder(10, attempts, 11);
  }

  /** A device that received 500 seconds shows 1000. */
  lemma ClosedTwice(ch: Channel)
    ensures AllFair(EmptyAccount(10), Unlucky())
    ensures Received(10, 0, ch, WithoutCrashes(Unlucky())) == 500
    ensures Total(Abs(CrashRun(NewDevice(10), Unlucky())), ch) == 1000
  {
    UnluckyReceived(ch);
    UnluckyRun();
    KeptCloses();
    KeptTotal(ch);
    CutStartExactly(Kept(), Attempt(11, 1), 11, ch);
  }
}
