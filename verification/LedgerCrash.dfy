/** Crashes at any database-write boundary: what recovery rebuilds never exceeds what was there. */
module LedgerCrash {
  import opened Options
  import opened Ledger
  import opened LedgerTables
  import opened LedgerInvariant
  import opened LedgerRuns
  import opened LedgerBook
  import opened LedgerStartup

  /** The durable states an operation passes through, starting with the one it finds. */
  function Commits(m: Machine, op: Op): (c: seq<Tables>)
    requires m.month != []
    ensures c != []
  {
    [m.tables] +
    match op
    case Put(today, _, flag, _) => if flag then NewSessionCommits(m, today) else []
    case Save => SaveTodayCommits(m)
    case Restart(_) => [Shutdown(m)]
  }

  /** What a number of attempts to start, each cut off after some write, make of the tables. */
  function Tried(t: Tables, attempts: seq<Attempt>): Tables
    decreases attempts
  {
    if attempts == [] then t else Tried(Reached(t, attempts[0]), attempts[1..])
  }

  /** A run with crashes: an operation completes, or is cut off after its `at`-th commit and the server
      starts again from the tables alone, after attempts that were cut off themselves. */
  datatype Event = Done(op: Op) | Crash(op: Op, at: nat, attempts: seq<Attempt>, today: nat)

  function Left(m: Machine, op: Op, at: nat): (t: Tables)
    requires m.month != []
    ensures t in Commits(m, op)
  {
    var c := Commits(m, op);
    c[if at < |c| then at else |c| - 1]
  }

  function Happen(m: Machine, e: Event): (m': Machine)
    requires m.month != []
    ensures m'.month != []
  {
    match e
    case Done(op) => Apply(m, op)
    case Crash(op, at, attempts, today) => Startup(Tried(Left(m, op, at), attempts), today)
  }

  function AccountTried(a: Account, attempts: seq<Attempt>): Account
    decreases attempts
  {
    if attempts == [] then a else AccountTried(AccountRestart(a, attempts[0].today), attempts[1..])
  }

  /** The reference book: nothing is ever lost in a crash. */
  function AccountHappen(a: Account, e: Event): Account {
    match e
    case Done(op) => AccountApply(a, op)
    case Crash(op, _, attempts, today) => AccountRestart(AccountTried(AccountApply(a, op), attempts), today)
  }

  /** No attempt is cut off between the two writes that close a session which is not all zero. */
  predicate Spared(t: Tables, attempts: seq<Attempt>)
    decreases attempts
  {
    attempts != [] ==>
      && (Between(t, attempts[0]) ==> t.session.value.times == Zero())
      && Spared(Reached(t, attempts[0]), attempts[1..])
  }

  predicate Unbroken(m: Machine, e: Event)
    requires m.month != []
  {
    e.Crash? ==> Spared(Left(m, e.op, e.at), e.attempts)
  }

  /** The clock does not run backwards over the attempts. */
  predicate InOrder(day: nat, attempts: seq<Attempt>, today: nat)
    decreases attempts
  {
    if attempts == [] then day <= today
    else day <= attempts[0].today && InOrder(attempts[0].today, attempts[1..], today)
  }

  /** Channel values are non-negative and never fall within a session. */
  predicate Steady(a: Account, op: Op) {
    match op
    case Put(_, _, flag, values) =>
      forall ch: Channel :: values[ch] >= if flag then 0 else a.open[ch]
    case _ => true
  }

  predicate Fair(a: Account, e: Event) {
    match e
    case Done(op) => Timely(a.day, op) && Steady(a, op)
    case Crash(op, _, attempts, today) =>
      Timely(a.day, op) && Steady(a, op) && InOrder(DayAfter(a.day, op), attempts, today)
  }

  // ---------------------------------------------------------------------------------------------
  // Never more than the reference book
  // ---------------------------------------------------------------------------------------------

  /** The live total of a day: its entry and, on the account's day, the open session. */
  function Live(a: Account, day: nat, ch: Channel): int {
    Entry(a.book, day, ch) + if day == a.day then a.open[ch] else 0
  }

  function SessionEntry(t: Tables, day: nat, ch: Channel): int {
    if t.session.Some? && t.session.value.day == day then t.session.value.times[ch] else 0
  }

  /** The durable history row and the durable session row of a day, which is what recovery adds up. */
  function Durable(t: Tables, day: nat, ch: Channel): int {
    Entry(t.history, day, ch) + SessionEntry(t, day, ch)
  }

  predicate CoveredAt(t: Tables, a: Account, day: nat, ch: Channel) {
    Entry(t.history, day, ch) <= Entry(a.book, day, ch) && Durable(t, day, ch) <= Live(a, day, ch)
  }

  ghost predicate Covered(t: Tables, a: Account) {
    forall day: nat, ch: Channel :: CoveredAt(t, a, day, ch)
  }

  predicate SafeAt(m: Machine, a: Account, day: nat, ch: Channel)
    requires m.month != []
  {
    && Entry(Book(m), day, ch) <= Entry(a.book, day, ch)
    && Live(Abs(m), day, ch) <= Live(a, day, ch)
    && Entry(Book(m), day, ch) + SessionEntry(m.tables, day, ch) <= Live(a, day, ch)
    && CoveredAt(m.tables, a, day, ch)
  }

  /** The machine, with its crash state, stays below the reference book day by day. */
  ghost predicate Safe(m: Machine, a: Account)
    requires m.month != []
  {
    && Current(m).epoch == a.day
    && BookUpToDay(a)
    && (forall ch: Channel :: a.open[ch] >= 0)
    && (forall day: nat, ch: Channel :: SafeAt(m, a, day, ch))
  }

  lemma CommitsOk(m: Machine, op: Op)
    requires Inv(m) && Timely(Current(m).epoch, op)
    ensures forall t :: t in Commits(m, op) ==> TablesOk(t, DayAfter(Current(m).epoch, op)) && t.session.Some?
  {
    match op
    case Put(today, _, flag, _) =>
      if flag {
        InvNewSession(m, today);
      }
    case Save => InvSaveToday(m);
    case Restart(_) => ShutdownOk(m);
  }

  lemma NonNegative(a: Account, op: Op)
    requires Steady(a, op) && forall ch: Channel :: a.open[ch] >= 0
    ensures forall ch: Channel :: AccountApply(a, op).open[ch] >= 0
  {
    match op
    case Put(_, _, flag, values) =>
      forall ch: Channel
        ensures values[ch] >= 0
      {
        assert values[ch] >= if flag then 0 else a.open[ch];
      }
    case _ =>
  }

  lemma BookKept(a: Account, op: Op)
    requires BookUpToDay(a) && Timely(a.day, op)
    ensures BookUpToDay(AccountApply(a, op)) && AccountApply(a, op).day == DayAfter(a.day, op)
  {
  }

  /** The reference book only grows, entry by entry and in its live totals. */
  lemma AccountGrows(a: Account, op: Op, day: nat, ch: Channel)
    requires BookUpToDay(a) && Timely(a.day, op) && Steady(a, op) && a.open[ch] >= 0
    ensures Entry(a.book, day, ch) <= Entry(AccountApply(a, op).book, day, ch)
    ensures Live(a, day, ch) <= Live(AccountApply(a, op), day, ch)
  {
    if op.Put? {
      assert op.values[ch] >= if op.flag then 0 else a.open[ch];
    }
  }

  lemma ResetSafeAt(m: Machine, a: Account, today: nat, day: nat, ch: Channel)
    requires Inv(m) && Safe(m, a) && a.day <= today
    ensures SafeAt(NewSession(m, today), MovedTo(Entered(a), today), day, ch)
  {
    var t := NewSession(m, today).tables;
    ResetRefines(m, today);
    ResetBelow(m, a, today, day, ch);
    NewSessionCovered(m, a, today, t, day, ch);
    NoSessionLeft(m, today, day, ch);
  }

  /** What the reset makes of the book stays below what it makes of a larger one. */
  lemma ResetBelow(m: Machine, a: Account, today: nat, day: nat, ch: Channel)
    requires m.month != [] && Safe(m, a) && a.day <= today
    ensures
      var x, b := MovedTo(Entered(Abs(m)), today), MovedTo(Entered(a), today);
      && Entry(x.book, day, ch) <= Entry(b.book, day, ch) && Live(x, day, ch) <= Live(b, day, ch)
      && Entry(x.book, day, ch) <= Live(b, day, ch)
  {
    assert SafeAt(m, a, day, ch);
  }

  lemma NoSessionLeft(m: Machine, today: nat, day: nat, ch: Channel)
    requires m.month != []
    ensures SessionEntry(NewSession(m, today).tables, day, ch) == 0
    ensures NewSession(m, today).tables in NewSessionCommits(m, today)
  {
  }

  lemma ReceiveSafeAt(m: Machine, a: Account, second: int, values: Times, open: Times, day: nat, ch: Channel)
    requires m.month != [] && Current(m).epoch == a.day && SafeAt(m, a, day, ch)
    requires a.open[ch] <= open[ch] && values[ch] <= open[ch]
    ensures SafeAt(Receive(m, second, values), a.(open := open), day, ch)
  {
  }

  lemma PutSafe(m: Machine, a: Account, op: Op, day: nat, ch: Channel)
    requires Inv(m) && Safe(m, a) && op.Put? && Timely(a.day, op) && Steady(a, op)
    ensures SafeAt(Apply(m, op), AccountApply(a, op), day, ch)
  {
    assert op.values[ch] >= if op.flag then 0 else a.open[ch];
    if op.flag {
      ResetRefines(m, op.today);
      ResetSafeAt(m, a, op.today, day, ch);
      ReceiveSafeAt(NewSession(m, op.today), MovedTo(Entered(a), op.today), op.second, op.values, op.values, day, ch);
    } else {
      assert SafeAt(m, a, day, ch);
      ReceiveSafeAt(m, a, op.second, op.values, op.values, day, ch);
    }
  }

  lemma SaveSafe(m: Machine, a: Account, day: nat, ch: Channel)
    requires Inv(m) && Safe(m, a)
    ensures SafeAt(SaveToday(m), a, day, ch)
  {
    assert SafeAt(m, a, day, ch);
  }

  /** Every durable state an operation passes through is covered by the reference book after it. */
  lemma CommitsCovered(m: Machine, a: Account, op: Op, t: Tables, day: nat, ch: Channel)
    requires Inv(m) && Safe(m, a) && Timely(a.day, op) && Steady(a, op)
    requires t in Commits(m, op)
    ensures CoveredAt(t, AccountApply(a, op), day, ch)
  {
    assert SafeAt(m, a, day, ch);
    AccountGrows(a, op, day, ch);
    match op
    case Put(today, _, flag, values) =>
      if flag && t in NewSessionCommits(m, today) {
        NewSessionCovered(m, a, today, t, day, ch);
      }
    case Save =>
    case Restart(_) =>
      if t == Shutdown(m) {
        ShutdownCovered(m, a, day, ch);
      }
  }

  /** Zeroing the session row before the merged day is written is what keeps both writes covered. */
  lemma NewSessionCovered(m: Machine, a: Account, today: nat, t: Tables, day: nat, ch: Channel)
    requires Inv(m) && Safe(m, a) && a.day <= today
    requires t in NewSessionCommits(m, today)
    ensures CoveredAt(t, MovedTo(Entered(a), today), day, ch)
  {
    assert SafeAt(m, a, day, ch);
  }

  lemma ShutdownCovered(m: Machine, a: Account, day: nat, ch: Channel)
    requires Inv(m) && Safe(m, a)
    ensures CoveredAt(Shutdown(m), a, day, ch)
  {
    assert SafeAt(m, a, day, ch);
  }

  /** Recovery rebuilds, for every day, exactly the durable history row plus the durable session row. */
  lemma Recovered(t: Tables, today: nat, day: nat, ch: Channel)
    requires TablesOk(t, today) && today >= 1
    ensures Live(Abs(Startup(t, today)), day, ch) == Durable(t, day, ch)
  {
  }

  lemma StartupSafe(t: Tables, a: Account, today: nat, day: nat, ch: Channel)
    requires TablesOk(t, a.day) && BookUpToDay(a) && 1 <= a.day <= today
    requires CoveredAt(t, a, day, ch) && a.open[ch] >= 0
    ensures SafeAt(Startup(t, today), AccountRestart(a, today), day, ch)
  {
    Recovered(t, today, day, ch);
    StartedAt(t, today, day, ch);
    StartedBook(t, a, today, day, ch);
    WithinAt(Startup(t, today), AccountRestart(a, today), day, ch);
  }

  /** The history and the session row of a machine that has just started say what it has in memory. */
  lemma StartedAt(t: Tables, today: nat, day: nat, ch: Channel)
    requires TablesOk(t, today) && today >= 1
    ensures
      var m := Startup(t, today);
      && Current(m).epoch == today
      && Entry(Book(m), day, ch) == Entry(m.tables.history, day, ch)
      && SessionEntry(m.tables, day, ch) == if day == today then m.session.times[ch] else 0
  {
  }

  lemma StartedBook(t: Tables, a: Account, today: nat, day: nat, ch: Channel)
    requires TablesOk(t, a.day) && BookUpToDay(a) && 1 <= a.day <= today
    requires CoveredAt(t, a, day, ch) && a.open[ch] >= 0
    ensures
      var b := AccountRestart(a, today);
      && Entry(Book(Startup(t, today)), day, ch) <= Entry(b.book, day, ch)
      && Durable(t, day, ch) <= Live(b, day, ch)
  {
  }

  lemma WithinAt(m: Machine, b: Account, day: nat, ch: Channel)
    requires m.month != [] && Current(m).epoch == b.day
    requires Entry(Book(m), day, ch) == Entry(m.tables.history, day, ch)
    requires SessionEntry(m.tables, day, ch) == if day == b.day then m.session.times[ch] else 0
    requires Entry(Book(m), day, ch) <= Entry(b.book, day, ch) && Live(Abs(m), day, ch) <= Live(b, day, ch)
    ensures SafeAt(m, b, day, ch)
  {
  }

  lemma RestartKept(a: Account, today: nat)
    requires BookUpToDay(a) && a.day <= today && forall ch: Channel :: a.open[ch] >= 0
    ensures
      var b := AccountRestart(a, today);
      BookUpToDay(b) && b.day == today && forall ch: Channel :: b.open[ch] >= 0
  {
  }

  lemma AllRecovered(t: Tables, a: Account, today: nat)
    requires TablesOk(t, a.day) && BookUpToDay(a) && 1 <= a.day <= today
    requires Covered(t, a) && forall ch: Channel :: a.open[ch] >= 0
    ensures forall day: nat, ch: Channel :: SafeAt(Startup(t, today), AccountRestart(a, today), day, ch)
  {
    forall day: nat, ch: Channel
      ensures SafeAt(Startup(t, today), AccountRestart(a, today), day, ch)
    {
      assert CoveredAt(t, a, day, ch);
      StartupSafe(t, a, today, day, ch);
    }
  }

  lemma RecoverSafe(t: Tables, a: Account, today: nat)
    requires TablesOk(t, a.day) && BookUpToDay(a) && 1 <= a.day <= today
    requires Covered(t, a) && forall ch: Channel :: a.open[ch] >= 0
    ensures Inv(Startup(t, today)) && Safe(Startup(t, today), AccountRestart(a, today))
  {
    InvStartup(t, today);
    RestartKept(a, today);
    AllRecovered(t, a, today);
    var m, b := Startup(t, today), AccountRestart(a, today);
    assert Current(m).epoch == b.day && BookUpToDay(b);
  }

  /** An attempt that is cut off leaves tables within the reference book, which goes on to its day. */
  lemma AttemptCovered(t: Tables, a: Account, s: Attempt, day: nat, ch: Channel)
    requires TablesOk(t, a.day) && BookUpToDay(a) && 1 <= a.day <= s.today
    requires CoveredAt(t, a, day, ch) && a.open[ch] >= 0
    requires Between(t, s) ==> t.session.value.times == Zero()
    ensures CoveredAt(Reached(t, s), AccountRestart(a, s.today), day, ch)
  {
    ReachedState(t, s);
    RestartGrows(a, s.today, day, ch);
    if Finished(t, s) {
      StartupSafe(t, a, s.today, day, ch);
    } else {
      ReachedHistory(t, s, day, ch);
    }
  }

  lemma RestartGrows(a: Account, today: nat, day: nat, ch: Channel)
    requires BookUpToDay(a) && a.day <= today && a.open[ch] >= 0
    ensures
      var b := AccountRestart(a, today);
      Entry(a.book, day, ch) <= Entry(b.book, day, ch) && Live(a, day, ch) <= Live(b, day, ch)
  {
  }

  /** What an unfinished attempt has added to a history row, and to what recovery adds up. */
  lemma ReachedHistory(t: Tables, s: Attempt, day: nat, ch: Channel)
    requires !Finished(t, s)
    ensures
      var extra := if Between(t, s) && day == t.session.value.day then t.session.value.times[ch] else 0;
      && Entry(Reached(t, s).history, day, ch) == Entry(t.history, day, ch) + extra
      && Durable(Reached(t, s), day, ch) == Durable(t, day, ch) + extra
  {
    ReachedState(t, s);
    if !Between(t, s) && Reached(t, s) != t {
      Deleted(t, StaleDays(t.events, s.today), Reached(t, s));
    }
  }

  /** Starting at last, after any number of attempts. */
  lemma {:induction false} TriedSafe(t: Tables, a: Account, attempts: seq<Attempt>, today: nat)
    requires TablesOk(t, a.day) && BookUpToDay(a) && 1 <= a.day && InOrder(a.day, attempts, today)
    requires Covered(t, a) && forall ch: Channel :: a.open[ch] >= 0
    requires Spared(t, attempts)
    ensures
      var m := Startup(Tried(t, attempts), today);
      Inv(m) && Safe(m, AccountRestart(AccountTried(a, attempts), today))
    decreases attempts
  {
    if attempts == [] {
      RecoverSafe(t, a, today);
    } else {
      var s := attempts[0];
      var t', b := Reached(t, s), AccountRestart(a, s.today);
      ReachedOk(t, s);
      RestartKept(a, s.today);
      forall day: nat, ch: Channel
        ensures CoveredAt(t', b, day, ch)
      {
        assert CoveredAt(t, a, day, ch);
        AttemptCovered(t, a, s, day, ch);
      }
      TriedSafe(t', b, attempts[1..], today);
    }
  }

  lemma DoneSafe(m: Machine, a: Account, op: Op)
    requires Inv(m) && Safe(m, a) && Timely(a.day, op) && Steady(a, op)
    ensures Inv(Apply(m, op)) && Safe(Apply(m, op), AccountApply(a, op))
  {
    ApplyRefines(m, op);
    NonNegative(a, op);
    BookKept(a, op);
    CurrentInMemory(m);
    match op
    case Put(_, _, _, _) =>
      forall day: nat, ch: Channel
        ensures SafeAt(Apply(m, op), AccountApply(a, op), day, ch)
      {
        PutSafe(m, a, op, day, ch);
      }
    case Save =>
      forall day: nat, ch: Channel
        ensures SafeAt(Apply(m, op), a, day, ch)
      {
        SaveSafe(m, a, day, ch);
      }
    case Restart(today) =>
      forall day: nat, ch: Channel
        ensures CoveredAt(Shutdown(m), a, day, ch)
      {
        ShutdownCovered(m, a, day, ch);
      }
      ShutdownOk(m);
      RecoverSafe(Shutdown(m), a, today);
  }

  lemma HappenSafe(m: Machine, a: Account, e: Event)
    requires Inv(m) && Safe(m, a) && Fair(a, e) && Unbroken(m, e)
    ensures Inv(Happen(m, e)) && Safe(Happen(m, e), AccountHappen(a, e))
  {
    match e
    case Done(op) => DoneSafe(m, a, op);
    case Crash(op, at, attempts, today) => CrashSafe(m, a, op, Left(m, op, at), attempts, today);
  }

  /** Starting again from any durable state of an operation. */
  lemma CrashSafe(m: Machine, a: Account, op: Op, t: Tables, attempts: seq<Attempt>, today: nat)
    requires Inv(m) && Safe(m, a) && Timely(a.day, op) && Steady(a, op) && t in Commits(m, op)
    requires InOrder(DayAfter(a.day, op), attempts, today) && Spared(t, attempts)
    ensures
      var m', a' := Startup(Tried(t, attempts), today), AccountTried(AccountApply(a, op), attempts);
      Inv(m') && Safe(m', AccountRestart(a', today))
  {
    var a' := AccountApply(a, op);
    CommitsOk(m, op);
    NonNegative(a, op);
    BookKept(a, op);
    CurrentInMemory(m);
    forall day: nat, ch: Channel
      ensures CoveredAt(t, a', day, ch)
    {
      CommitsCovered(m, a, op, t, day, ch);
    }
    TriedSafe(t, a', attempts, today);
  }

  // ---------------------------------------------------------------------------------------------
  // Whole runs
  // ---------------------------------------------------------------------------------------------

  function CrashRun(m: Machine, events: seq<Event>): (m': Machine)
    requires m.month != []
    ensures m'.month != []
    decreases events
  {
    if events == [] then m else CrashRun(Happen(m, events[0]), events[1..])
  }

  function AccountCrashRun(a: Account, events: seq<Event>): Account
    decreases events
  {
    if events == [] then a else AccountCrashRun(AccountHappen(a, events[0]), events[1..])
  }

  predicate AllFair(a: Account, events: seq<Event>)
    decreases events
  {
    events != [] ==> Fair(a, events[0]) && AllFair(AccountHappen(a, events[0]), events[1..])
  }

  predicate AllUnbroken(m: Machine, events: seq<Event>)
    requires m.month != []
    decreases events
  {
    events != [] ==> Unbroken(m, events[0]) && AllUnbroken(Happen(m, events[0]), events[1..])
  }

  lemma {:induction false} CrashRunSafe(m: Machine, a: Account, events: seq<Event>)
    requires Inv(m) && Safe(m, a) && AllFair(a, events) && AllUnbroken(m, events)
    ensures Inv(CrashRun(m, events)) && Safe(CrashRun(m, events), AccountCrashRun(a, events))
    decreases events
  {
    if events != [] {
      HappenSafe(m, a, events[0]);
      CrashRunSafe(Happen(m, events[0]), AccountHappen(a, events[0]), events[1..]);
    }
  }

  lemma {:induction false} SumBounded(x: Account, a: Account, ch: Channel, n: nat)
    requires forall day: nat :: day < n ==> Live(x, day, ch) <= Live(a, day, ch)
    requires x.day == a.day
    ensures SumDays(x.book, ch, n) + (if x.day < n then x.open[ch] else 0)
         <= SumDays(a.book, ch, n) + (if a.day < n then a.open[ch] else 0)
  {
    if n > 0 {
      SumBounded(x, a, ch, n - 1);
      assert Live(x, n - 1, ch) <= Live(a, n - 1, ch);
    }
  }

  /** Over any run with crashes at any write boundary but the one between the two writes that close an
      earlier day's session, no day and no channel ever shows more seconds than the reference book that
      crashes do not touch: recovery never counts a second twice. */
  lemma NoDoubleCount(m: Machine, a: Account, events: seq<Event>, ch: Channel)
    requires Inv(m) && Safe(m, a) && AllFair(a, events) && AllUnbroken(m, events)
    ensures forall day: nat ::
      Live(Abs(CrashRun(m, events)), day, ch) <= Live(AccountCrashRun(a, events), day, ch)
    ensures Total(Abs(CrashRun(m, events)), ch) <= Total(AccountCrashRun(a, events), ch)
  {
    CrashRunSafe(m, a, events);
    SafeBounds(CrashRun(m, events), AccountCrashRun(a, events), ch);
  }

  /** A safe machine shows no more than the reference book, on any day and in all. */
  lemma SafeBounds(x: Machine, b: Account, ch: Channel)
    requires x.month != [] && Safe(x, b)
    ensures forall day: nat :: Live(Abs(x), day, ch) <= Live(b, day, ch)
    ensures Total(Abs(x), ch) <= Total(b, ch)
  {
    forall day: nat
      ensures Live(Abs(x), day, ch) <= Live(b, day, ch)
    {
      assert SafeAt(x, b, day, ch);
    }
    SumBounded(Abs(x), b, ch, b.day + 1);
  }

  function Restarts(attempts: seq<Attempt>): seq<Op> {
    if attempts == [] then [] else [Restart(attempts[0].today)] + Restarts(attempts[1..])
  }

  /** The same run with every crash replaced by a completed operation, and every attempt and the start
      after it by a clean restart. */
  function WithoutCrashes(events: seq<Event>): seq<Op> {
    if events == [] then []
    else
      match events[0]
      case Done(op) => [op] + WithoutCrashes(events[1..])
      case Crash(op, _, attempts, today) =>
        [op] + (Restarts(attempts) + ([Restart(today)] + WithoutCrashes(events[1..])))
  }

  lemma {:induction false} RestartsRun(a: Account, attempts: seq<Attempt>, today: nat, rest: seq<Op>)
    requires BookUpToDay(a) && InOrder(a.day, attempts, today)
    ensures
      var b, ops := AccountRestart(AccountTried(a, attempts), today), Restarts(attempts) + ([Restart(today)] + rest);
      && BookUpToDay(b) && b.day == today
      && AccountRun(a, ops) == AccountRun(b, rest)
      && (AllTimely(today, rest) ==> AllTimely(a.day, ops))
    decreases attempts
  {
    var ops := Restarts(attempts) + ([Restart(today)] + rest);
    if attempts == [] {
      BookKept(a, Restart(today));
      assert ops[0] == Restart(today) && ops[1..] == rest;
    } else {
      BookKept(a, Restart(attempts[0].today));
      assert ops[0] == Restart(attempts[0].today)
          && ops[1..] == Restarts(attempts[1..]) + ([Restart(today)] + rest);
      RestartsRun(AccountRestart(a, attempts[0].today), attempts[1..], today, rest);
    }
  }

  lemma {:induction false} CrashRunIsRun(a: Account, events: seq<Event>)
    requires AllFair(a, events) && BookUpToDay(a)
    ensures AccountCrashRun(a, events) == AccountRun(a, WithoutCrashes(events))
    ensures AllTimely(a.day, WithoutCrashes(events))
    decreases events
  {
    if events != [] {
      var ops, rest := WithoutCrashes(events), WithoutCrashes(events[1..]);
      BookKept(a, events[0].op);
      match events[0] {
        case Done(op) =>
          assert ops[1..] == rest;
        case Crash(op, _, attempts, today) =>
          assert ops[1..] == Restarts(attempts) + ([Restart(today)] + rest);
          RestartsRun(AccountApply(a, op), attempts, today, rest);
      }
      CrashRunIsRun(AccountHappen(a, events[0]), events[1..]);
    }
  }

  /** In particular a device that has crashed any number of times never shows more than it received. */
  lemma NeverMoreThanReceived(m: Machine, a: Account, events: seq<Event>, ch: Channel)
    requires Inv(m) && Safe(m, a) && AllFair(a, events) && AllUnbroken(m, events)
    ensures Total(Abs(CrashRun(m, events)), ch)
         <= SumDays(a.book, ch, a.day + 1) + Received(a.day, a.open[ch], ch, WithoutCrashes(events))
  {
    NoDoubleCount(m, a, events, ch);
    CrashRunIsRun(a, events);
    AccountConserves(a, WithoutCrashes(events), ch);
  }

  // ---------------------------------------------------------------------------------------------
  // A new device
  // ---------------------------------------------------------------------------------------------

  function NewDevice(today: nat): (m: Machine)
    ensures m.month != []
  {
    Startup(Tables(map[], [], None), today)
  }

  function EmptyAccount(today: nat): Account {
    Account(today, map[today := Zero()], Zero())
  }

  /** A new device stands for the empty book of its day and is safe against it. */
  lemma FreshDevice(today: nat)
    requires today >= 1
    ensures
      var m := NewDevice(today);
      Inv(m) && Abs(m) == EmptyAccount(today) && Safe(m, EmptyAccount(today))
  {
    var t := Tables(map[], [], None);
    var m, a := NewDevice(today), EmptyAccount(today);
    InvStartup(t, today);
    UnrecordedDay(t, today);
    assert Book(m) == a.book;
    forall day: nat, ch: Channel
      ensures SafeAt(m, a, day, ch)
    {
    }
  }

  lemma {:induction false} EmptySum(today: nat, ch: Channel, n: nat)
    ensures SumDays(map[today := Zero()], ch, n) == 0
  {
    if n > 0 {
      EmptySum(today, ch, n - 1);
    }
  }

  lemma EmptyTotal(today: nat, ch: Channel)
    ensures BookUpToDay(EmptyAccount(today)) && Total(EmptyAccount(today), ch) == 0
  {
    EmptySum(today, ch, today + 1);
  }

  lemma FromEmpty(today: nat, ops: seq<Op>, ch: Channel)
    requires AllTimely(today, ops)
    ensures Total(AccountRun(EmptyAccount(today), ops), ch) == Received(today, 0, ch, ops)
  {
    AccountConserves(EmptyAccount(today), ops, ch);
    EmptyTotal(today, ch);
  }

  /** From a new device on, the recorded days and the open session hold exactly what was received. */
  lemma NewDeviceRecords(today: nat, ops: seq<Op>, ch: Channel)
    requires today >= 1 && AllTimely(today, ops)
    ensures Total(Abs(Run(NewDevice(today), ops)), ch) == Received(today, 0, ch, ops)
  {
    FreshDevice(today);
    RunRefines(NewDevice(today), ops);
    FromEmpty(today, ops, ch);
  }

  /** And with crashes at any write boundary no more than that. */
  lemma NewDeviceNeverMore(today: nat, events: seq<Event>, ch: Channel)
    requires today >= 1 && AllFair(EmptyAccount(today), events) && AllUnbroken(NewDevice(today), events)
    ensures Total(Abs(CrashRun(NewDevice(today), events)), ch) <= Received(today, 0, ch, WithoutCrashes(events))
  {
    FreshDevice(today);
    NoDoubleCount(NewDevice(today), EmptyAccount(today), events, ch);
    CrashRunIsRun(EmptyAccount(today), events);
    FromEmpty(today, WithoutCrashes(events), ch);
  }
}
