/** The account book that a machine never exceeds even when values fall within a session and the server
    crashes: its open session keeps the largest value of every channel. */
module LedgerEnvelope {
  import opened Ledger
  import opened LedgerInvariant
  import opened LedgerBook
  import opened LedgerStartup
  import opened LedgerCrash

  function Max(a: Times, b: Times): Times {
    seq(CHANNELS, i requires 0 <= i < CHANNELS => if a[i] < b[i] then b[i] else a[i])
  }

  /** The part of a packet that can be in the tables before its values are: the reset. */
  function Reset(a: Account, today: nat, flag: bool): Account {
    if flag then MovedTo(Entered(a), today) else a
  }

  function EnvelopePut(a: Account, today: nat, flag: bool, values: Times): Account {
    if flag then Reset(a, today, flag).(open := Max(values, Zero())) else a.(open := Max(a.open, values))
  }

  // ---------------------------------------------------------------------------------------------
  // Without crashes
  // ---------------------------------------------------------------------------------------------

  /** No entry and no open session is larger. */
  ghost predicate Below(x: Account, a: Account) {
    && x.day == a.day && BookUpToDay(x) && BookUpToDay(a)
    && (forall day: nat, ch: Channel :: Entry(x.book, day, ch) <= Entry(a.book, day, ch))
    && (forall ch: Channel :: x.open[ch] <= a.open[ch])
  }

  lemma BelowTotal(x: Account, a: Account, ch: Channel)
    requires Below(x, a)
    ensures Total(x, ch) <= Total(a, ch)
  {
    forall day: nat
      ensures Live(x, day, ch) <= Live(a, day, ch)
    {
    }
    SumBounded(x, a, ch, a.day + 1);
  }

  lemma BelowEntered(x: Account, a: Account)
    requires Below(x, a)
    ensures Below(Entered(x), Entered(a))
  {
    forall day: nat, ch: Channel
      ensures Entry(Entered(x).book, day, ch) <= Entry(Entered(a).book, day, ch)
    {
      assert Entry(x.book, day, ch) <= Entry(a.book, day, ch);
    }
  }

  lemma BelowMoved(x: Account, a: Account, today: nat)
    requires Below(x, a) && a.day <= today
    ensures Below(MovedTo(x, today), MovedTo(a, today))
  {
    forall day: nat, ch: Channel
      ensures Entry(MovedTo(x, today).book, day, ch) <= Entry(MovedTo(a, today).book, day, ch)
    {
      assert Entry(x.book, day, ch) <= Entry(a.book, day, ch);
    }
  }

  lemma BelowReset(x: Account, a: Account, today: nat, flag: bool)
    requires Below(x, a) && a.day <= today
    ensures Below(Reset(x, today, flag), Reset(a, today, flag))
  {
    if flag {
      BelowEntered(x, a);
      BelowMoved(Entered(x), Entered(a), today);
    }
  }

  lemma BelowPut(x: Account, a: Account, today: nat, flag: bool, values: Times)
    requires Below(x, a) && a.day <= today
    ensures Below(AccountPut(x, today, flag, values), EnvelopePut(a, today, flag, values))
  {
    BelowReset(x, a, today, flag);
  }

  lemma BelowRestart(x: Account, a: Account, today: nat)
    requires Below(x, a) && a.day <= today
    ensures Below(AccountRestart(x, today), AccountRestart(a, today))
  {
    if today != a.day {
      BelowReset(x, a, today, true);
    }
  }

  // ---------------------------------------------------------------------------------------------
  // With crashes
  // ---------------------------------------------------------------------------------------------

  /** Resetting changes no live total for the worse. */
  lemma ResetGrows(a: Account, today: nat, flag: bool, day: nat, ch: Channel)
    requires BookUpToDay(a) && a.day <= today && a.open[ch] >= 0
    ensures
      var b := Reset(a, today, flag);
      Entry(a.book, day, ch) <= Entry(b.book, day, ch) && Live(a, day, ch) <= Live(b, day, ch)
  {
  }

  lemma ResetKept(a: Account, today: nat, flag: bool)
    requires BookUpToDay(a) && a.day <= today && forall ch: Channel :: a.open[ch] >= 0
    ensures
      var b := Reset(a, today, flag);
      BookUpToDay(b) && b.day == (if flag then today else a.day) && forall ch: Channel :: b.open[ch] >= 0
  {
  }

  /** Every durable state of a packet is covered by the book after its reset: the values are not in it. */
  lemma PacketCovered(m: Machine, a: Account, op: Op, t: Tables, day: nat, ch: Channel)
    requires Inv(m) && Safe(m, a) && op.Put? && a.day <= op.today && t in Commits(m, op)
    ensures CoveredAt(t, Reset(a, op.today, op.flag), day, ch)
  {
    assert SafeAt(m, a, day, ch);
    ResetGrows(a, op.today, op.flag, day, ch);
    if t != m.tables {
      NewSessionCovered(m, a, op.today, t, day, ch);
    }
  }

  /** A crash while a packet is processed loses the packet, but not the reset. */
  lemma PacketCut(m: Machine, a: Account, op: Op, at: nat, attempts: seq<Attempt>, today: nat)
    requires Inv(m) && Safe(m, a) && op.Put? && a.day <= op.today && InOrder(op.today, attempts, today)
    requires Spared(Left(m, op, at), attempts)
    ensures
      var m' := Happen(m, Crash(op, at, attempts, today));
      Inv(m') && Safe(m', AccountRestart(AccountTried(Reset(a, op.today, op.flag), attempts), today))
  {
    var b, t := Reset(a, op.today, op.flag), Left(m, op, at);
    CommitsOk(m, op);
    ResetKept(a, op.today, op.flag);
    CurrentInMemory(m);
    forall day: nat, ch: Channel
      ensures CoveredAt(t, b, day, ch)
    {
      PacketCovered(m, a, op, t, day, ch);
    }
    EarlierInOrder(b.day, op.today, attempts, today);
    TriedSafe(t, b, attempts, today);
  }

  lemma EarlierInOrder(day: nat, day': nat, attempts: seq<Attempt>, today: nat)
    requires day <= day' && InOrder(day', attempts, today)
    ensures InOrder(day, attempts, today)
  {
  }

  lemma PacketSafeAt(m: Machine, a: Account, op: Op, day: nat, ch: Channel)
    requires Inv(m) && Safe(m, a) && op.Put? && a.day <= op.today
    ensures SafeAt(Apply(m, op), EnvelopePut(a, op.today, op.flag, op.values), day, ch)
  {
    var open := EnvelopePut(a, op.today, op.flag, op.values).open;
    if op.flag {
      ResetRefines(m, op.today);
      ResetSafeAt(m, a, op.today, day, ch);
      ReceiveSafeAt(NewSession(m, op.today), Reset(a, op.today, true), op.second, op.values, open, day, ch);
    } else {
      assert SafeAt(m, a, day, ch);
      ReceiveSafeAt(m, a, op.second, op.values, open, day, ch);
    }
  }

  /** A processed packet, whatever its values. */
  lemma PacketSafe(m: Machine, a: Account, op: Op)
    requires Inv(m) && Safe(m, a) && op.Put? && a.day <= op.today
    ensures Inv(Apply(m, op)) && Safe(Apply(m, op), EnvelopePut(a, op.today, op.flag, op.values))
  {
    var b := EnvelopePut(a, op.today, op.flag, op.values);
    ApplyRefines(m, op);
    ResetKept(a, op.today, op.flag);
    forall day: nat, ch: Channel
      ensures SafeAt(Apply(m, op), b, day, ch)
    {
      PacketSafeAt(m, a, op, day, ch);
    }
  }
}
