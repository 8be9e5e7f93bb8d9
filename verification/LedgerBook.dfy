/** The account book the ledger machine refines, and what holds over whole runs: no second is lost or
    counted twice. */
module LedgerBook {
  import opened Ledger
  import opened LedgerInvariant
  import opened LedgerRuns

  // ---------------------------------------------------------------------------------------------
  // The account book: one map from days to seconds, and the open session
  // ---------------------------------------------------------------------------------------------

  datatype Account = Account(day: nat, book: map<nat, Times>, open: Times)

  /** The open session entered under the account's day. */
  function Entered(a: Account): Account {
    a.(book := a.book[a.day := if a.day in a.book then Plus(a.book[a.day], a.open) else a.open], open := Zero())
  }

  /** The account moved to a day without entries, if it is not there yet. */
  function MovedTo(a: Account, today: nat): Account {
    if today == a.day then a else a.(day := today, book := a.book[today := Zero()])
  }

  function AccountPut(a: Account, today: nat, flag: bool, values: Times): Account {
    (if flag then MovedTo(Entered(a), today) else a).(open := values)
  }

  /** A restart on a later day closes the session; on the same day it changes nothing. */
  function AccountRestart(a: Account, today: nat): Account {
    if today == a.day then a else MovedTo(Entered(a), today)
  }

  /** The book the machine stands for: the history table with the current day's row taken from memory. */
  function Book(m: Machine): map<nat, Times>
    requires m.month != []
  {
    m.tables.history[Current(m).epoch := Current(m).times]
  }

  function Abs(m: Machine): Account
    requires m.month != []
  {
    Account(Current(m).epoch, Book(m), m.session.times)
  }

  // ---------------------------------------------------------------------------------------------
  // Steps and runs
  // ---------------------------------------------------------------------------------------------

  datatype Op =
    | Put(today: nat, second: int, flag: bool, values: Times)
    | Save
    | Restart(today: nat)

  function Apply(m: Machine, op: Op): (m': Machine)
    requires m.month != []
    ensures m'.month != []
  {
    match op
    case Put(today, second, flag, values) => Packet(m, today, second, flag, values)
    case Save => SaveToday(m)
    case Restart(today) => Startup(Shutdown(m), today)
  }

  function AccountApply(a: Account, op: Op): Account {
    match op
    case Put(today, second, flag, values) => AccountPut(a, today, flag, values)
    case Save => a
    case Restart(today) => AccountRestart(a, today)
  }

  /** The clock of a step does not run backwards from `day`. */
  predicate Timely(day: nat, op: Op) {
    match op
    case Put(today, _, _, _) => day <= today
    case Save => true
    case Restart(today) => day <= today
  }

  function DayAfter(day: nat, op: Op): nat {
    match op
    case Put(today, _, flag, _) => if flag then today else day
    case Save => day
    case Restart(today) => today
  }

  function Run(m: Machine, ops: seq<Op>): (m': Machine)
    requires m.month != []
    ensures m'.month != []
    decreases ops
  {
    if ops == [] then m else Run(Apply(m, ops[0]), ops[1..])
  }

  function AccountRun(a: Account, ops: seq<Op>): Account
    decreases ops
  {
    if ops == [] then a else AccountRun(AccountApply(a, ops[0]), ops[1..])
  }

  predicate AllTimely(day: nat, ops: seq<Op>)
    decreases ops
  {
    ops != [] ==> Timely(day, ops[0]) && AllTimely(DayAfter(day, ops[0]), ops[1..])
  }

  // ---------------------------------------------------------------------------------------------
  // Refinement
  // ---------------------------------------------------------------------------------------------

  lemma ReceiveRefines(m: Machine, second: int, values: Times)
    requires m.month != []
    ensures Abs(Receive(m, second, values)) == Abs(m).(open := values)
  {
  }

  lemma ResetRefines(m: Machine, today: nat)
    requires Inv(m) && Current(m).epoch <= today
    ensures Abs(NewSession(m, today)) == MovedTo(Entered(Abs(m)), today)
  {
  }

  lemma PutRefines(m: Machine, today: nat, second: int, flag: bool, values: Times)
    requires Inv(m) && Current(m).epoch <= today
    ensures Abs(Packet(m, today, second, flag, values)) == AccountPut(Abs(m), today, flag, values)
  {
    if flag {
      ResetRefines(m, today);
      ReceiveRefines(NewSession(m, today), second, values);
    } else {
      ReceiveRefines(m, second, values);
    }
  }

  /** Shutting down and starting again, on the same day or a later one. */
  lemma RestartRefines(m: Machine, today: nat)
    requires Inv(m) && Current(m).epoch <= today
    ensures Abs(Startup(Shutdown(m), today)) == AccountRestart(Abs(m), today)
  {
    var t := Shutdown(m);
    ShutdownOk(m);
    var day := Current(m).epoch;
    if today == day {
      assert Prepared(t, today).history == t.history;
    } else {
      assert today !in Prepared(t, today).history;
    }
  }

  lemma ApplyRefines(m: Machine, op: Op)
    requires Inv(m) && Timely(Current(m).epoch, op)
    ensures Inv(Apply(m, op)) && Current(Apply(m, op)).epoch == DayAfter(Current(m).epoch, op)
    ensures Abs(Apply(m, op)) == AccountApply(Abs(m), op)
  {
    match op
    case Put(today, second, flag, values) =>
      InvPacket(m, today, second, flag, values);
      PutRefines(m, today, second, flag, values);
    case Save =>
      InvSaveToday(m);
    case Restart(today) =>
      ShutdownOk(m);
      CurrentInMemory(m);
      InvStartup(Shutdown(m), today);
      RestartRefines(m, today);
  }

  /** Over any run the machine stands for the account book run in step. */
  lemma {:induction false} RunRefines(m: Machine, ops: seq<Op>)
    requires Inv(m) && AllTimely(Current(m).epoch, ops)
    ensures Inv(Run(m, ops)) && Abs(Run(m, ops)) == AccountRun(Abs(m), ops)
    decreases ops
  {
    if ops != [] {
      ApplyRefines(m, ops[0]);
      RunRefines(Apply(m, ops[0]), ops[1..]);
    }
  }

  // ---------------------------------------------------------------------------------------------
  // Conservation
  // ---------------------------------------------------------------------------------------------

  /** The seconds the book has for a day and channel. */
  function Entry(book: map<nat, Times>, day: nat, ch: Channel): int {
    if day in book then book[day][ch] else 0
  }

  /** The seconds of a channel summed over the recorded days below `n`. */
  function SumDays(book: map<nat, Times>, ch: Channel, n: nat): int {
    if n == 0 then 0 else SumDays(book, ch, n - 1) + Entry(book, n - 1, ch)
  }

  /** All the seconds of a channel: every recorded day once, and the open session. */
  function Total(a: Account, ch: Channel): int {
    SumDays(a.book, ch, a.day + 1) + a.open[ch]
  }

  /** What a run received, read off the run alone: the last value before every reset, where a restart
      on a later day resets too, and the last value received. */
  function Received(day: nat, last: int, ch: Channel, ops: seq<Op>): int
    decreases ops
  {
    if ops == [] then last
    else
      match ops[0]
      case Put(today, _, flag, values) =>
        if flag then last + Received(today, values[ch], ch, ops[1..])
        else Received(day, values[ch], ch, ops[1..])
      case Save => Received(day, last, ch, ops[1..])
      case Restart(today) =>
        if today == day then Received(day, last, ch, ops[1..])
        else last + Received(today, 0, ch, ops[1..])
  }

  predicate BookUpToDay(a: Account) {
    a.day in a.book && forall day :: day in a.book ==> day <= a.day
  }

  lemma {:induction false} SumAgrees(b: map<nat, Times>, c: map<nat, Times>, ch: Channel, n: nat)
    requires forall day: nat :: day < n ==> Entry(b, day, ch) == Entry(c, day, ch)
    ensures SumDays(b, ch, n) == SumDays(c, ch, n)
  {
    if n > 0 {
      SumAgrees(b, c, ch, n - 1);
    }
  }

  lemma {:induction false} SumUpdate(b: map<nat, Times>, ch: Channel, n: nat, day: nat, times: Times)
    requires day < n
    ensures SumDays(b[day := times], ch, n) == SumDays(b, ch, n) - Entry(b, day, ch) + times[ch]
  {
    if n - 1 == day {
      SumAgrees(b[day := times], b, ch, day);
    } else {
      SumUpdate(b, ch, n - 1, day, times);
    }
  }

  lemma {:induction false} SumExtend(b: map<nat, Times>, ch: Channel, n: nat, n': nat)
    requires n <= n' && forall day :: day in b ==> day < n
    ensures SumDays(b, ch, n') == SumDays(b, ch, n)
  {
    if n < n' {
      SumExtend(b, ch, n, n' - 1);
    }
  }

  lemma EnteredTotal(a: Account, ch: Channel)
    requires BookUpToDay(a)
    ensures BookUpToDay(Entered(a)) && Total(Entered(a), ch) == Total(a, ch)
  {
    SumUpdate(a.book, ch, a.day + 1, a.day, Plus(a.book[a.day], a.open));
  }

  lemma MovedTotal(a: Account, today: nat, ch: Channel)
    requires BookUpToDay(a) && a.day <= today
    ensures BookUpToDay(MovedTo(a, today)) && Total(MovedTo(a, today), ch) == Total(a, ch)
  {
    if today != a.day {
      SumExtend(a.book, ch, a.day + 1, today + 1);
      SumUpdate(a.book, ch, today + 1, today, Zero());
    }
  }

  lemma {:induction false} AccountConserves(a: Account, ops: seq<Op>, ch: Channel)
    requires BookUpToDay(a) && AllTimely(a.day, ops)
    ensures Total(AccountRun(a, ops), ch) == Total(a, ch) - a.open[ch] + Received(a.day, a.open[ch], ch, ops)
    decreases ops
  {
    if ops != [] {
      var a' := AccountApply(a, ops[0]);
      EnteredTotal(a, ch);
      match ops[0] {
        case Put(today, second, flag, values) =>
          if flag {
            MovedTotal(Entered(a), today, ch);
          }
        case Save =>
        case Restart(today) =>
          if today != a.day {
            MovedTotal(Entered(a), today, ch);
          }
      }
      AccountConserves(a', ops[1..], ch);
    }
  }

  /** Conservation over whole runs of packets, resets, rollovers, saves and clean restarts: the
      seconds of every recorded day, each day once, plus the open session grow by exactly what was
      received. */
  lemma Conservation(m: Machine, ops: seq<Op>, ch: Channel)
    requires Inv(m) && AllTimely(Current(m).epoch, ops)
    ensures Total(Abs(Run(m, ops)), ch)
         == SumDays(Book(m), ch, Current(m).epoch + 1)
            + Received(Current(m).epoch, m.session.times[ch], ch, ops)
  {
    RunRefines(m, ops);
    AccountConserves(Abs(m), ops, ch);
  }
}
