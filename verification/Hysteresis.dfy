/** Start and stop detection: the pending-count automaton of `MachineTime::set` against its definition on
    the whole trace of a channel. */
module Hysteresis {
  import opened Options
  import opened Ledger
  import opened LedgerInvariant
  import opened LedgerBook

  /** How a packet's value compares with the previous one. */
  datatype Move = Rise | Same | Fall

  function MoveOf(before: int, now: int): Move {
    if now > before then Rise else if now == before then Same else Fall
  }

  // ---------------------------------------------------------------------------------------------
  // The definition on the trace
  // ---------------------------------------------------------------------------------------------

  /** The move that speaks against the current state, and the one that confirms it. */
  function Against(working: bool): Move { if working then Same else Rise }

  function For(working: bool): Move { if working then Rise else Same }

  /** The packets against the state since the last one for it; falling packets do not matter. */
  function Streak(working: bool, trace: seq<Move>): nat {
    if trace == [] then 0
    else
      var last, init := trace[|trace| - 1], trace[..|trace| - 1];
      if last == For(working) then 0
      else if last == Against(working) then 1 + Streak(working, init)
      else Streak(working, init)
  }

  /** The positions of the state changes: a packet changes the state exactly when it is the third
      against it since the last packet for it or the last change. */
  function Flips(working: bool, trace: seq<Move>): (events: seq<nat>)
    ensures forall i :: 0 <= i < |events| ==> events[i] < |trace|
  {
    if trace == [] then []
    else
      var events := Flips(working, trace[..|trace| - 1]);
      if Streak(StateAfter(working, events), trace[Since(events)..]) >= 3 then events + [|trace| - 1] else events
  }

  /** Every change inverts the state. */
  function StateAfter(working: bool, events: seq<nat>): bool {
    if |events| % 2 == 0 then working else !working
  }

  /** The first packet after the last change. */
  function Since(events: seq<nat>): nat {
    if events == [] then 0 else events[|events| - 1] + 1
  }

  // ---------------------------------------------------------------------------------------------
  // The automaton
  // ---------------------------------------------------------------------------------------------

  /** State after a trace, with the positions at which an event was recorded. */
  datatype State = State(working: bool, pending: int, events: seq<nat>)

  function StepMove(working: bool, pending: int, move: Move): ChannelStep {
    match move
    case Rise => StepChannel(working, pending, 0, 1)
    case Same => StepChannel(working, pending, 0, 0)
    case Fall => StepChannel(working, pending, 1, 0)
  }

  function RunTrace(working: bool, pending: int, trace: seq<Move>): State {
    if trace == [] then State(working, pending, [])
    else
      var s := RunTrace(working, pending, trace[..|trace| - 1]);
      var step := StepMove(s.working, s.pending, trace[|trace| - 1]);
      State(step.working, step.pending, if step.event.Some? then s.events + [|trace| - 1] else s.events)
  }

  /** One step of the automaton is one more packet of the streak. */
  lemma StreakStep(working: bool, recent: seq<Move>, move: Move)
    ensures var n, step := Streak(working, recent + [move]), StepMove(working, Streak(working, recent), move);
            Streak(working, recent) <= 2 ==>
              && (n >= 3 <==> step.event.Some?)
              && (n >= 3 ==> step.working == !working && step.pending == 0)
              && (n < 3 ==> step.working == working && step.pending == n)
  {
    assert (recent + [move])[..|recent|] == recent;
  }

  lemma FlipsAppend(working: bool, init: seq<Move>, move: Move)
    ensures var events := Flips(working, init);
            Flips(working, init + [move])
            == if Streak(StateAfter(working, events), init[Since(events)..] + [move]) >= 3
               then events + [|init|] else events
  {
    var trace, events := init + [move], Flips(working, init);
    assert trace[..|trace| - 1] == init;
    assert trace[Since(events)..] == init[Since(events)..] + [move];
  }

  lemma RunAppend(working: bool, init: seq<Move>, move: Move)
    ensures var s := RunTrace(working, 0, init);
            var step := StepMove(s.working, s.pending, move);
            RunTrace(working, 0, init + [move])
            == State(step.working, step.pending, if step.event.Some? then s.events + [|init|] else s.events)
  {
    assert (init + [move])[..|init + [move]| - 1] == init;
  }

  /** What the automaton's state means, given the changes so far and the packets since the last one. */
  predicate Agrees(s: State, working: bool, events: seq<nat>, recent: seq<Move>) {
    && s.events == events
    && s.working == StateAfter(working, events)
    && s.pending == Streak(s.working, recent)
    && 0 <= s.pending <= 2
  }

  lemma AgreesStep(s: State, working: bool, events: seq<nat>, recent: seq<Move>, at: nat, move: Move)
    requires Agrees(s, working, events, recent)
    ensures var step := StepMove(s.working, s.pending, move);
            var s' := State(step.working, step.pending, if step.event.Some? then s.events + [at] else s.events);
            if Streak(s.working, recent + [move]) >= 3 then Agrees(s', working, events + [at], [])
            else Agrees(s', working, events, recent + [move])
  {
    StreakStep(s.working, recent, move);
  }

  /** The packets since the last change, after one more packet. */
  lemma RecentAppend(working: bool, init: seq<Move>, move: Move)
    ensures var events, events' := Flips(working, init), Flips(working, init + [move]);
            var recent := init[Since(events)..] + [move];
            if Streak(StateAfter(working, events), recent) >= 3
            then events' == events + [|init|] && (init + [move])[Since(events')..] == []
            else events' == events && (init + [move])[Since(events')..] == recent
  {
    FlipsAppend(working, init, move);
    RecentPackets(init, Flips(working, init), move);
  }

  lemma RecentPackets(init: seq<Move>, events: seq<nat>, move: Move)
    requires Since(events) <= |init|
    ensures (init + [move])[Since(events)..] == init[Since(events)..] + [move]
    ensures Since(events + [|init|]) == |init| + 1 && (init + [move])[|init| + 1..] == []
  {
  }

  /** The automaton records exactly the changes of the trace definition; its pending count is the
      streak so far and stays between 0 and 2. */
  lemma {:induction false} AutomatonIsTrace(working: bool, trace: seq<Move>)
    ensures var events := Flips(working, trace);
            Agrees(RunTrace(working, 0, trace), working, events, trace[Since(events)..])
  {
    if trace != [] {
      var n := |trace| - 1;
      var init := trace[..n];
      assert trace == init + [trace[n]];
      AutomatonIsTrace(working, init);
      var events := Flips(working, init);
      AgreesStep(RunTrace(working, 0, init), working, events, init[Since(events)..], n, trace[n]);
      RunAppend(working, init, trace[n]);
      RecentAppend(working, init, trace[n]);
    }
  }

  // ---------------------------------------------------------------------------------------------
  // The automaton inside the ledger machine
  // ---------------------------------------------------------------------------------------------

  /** The kinds of event a run records for a channel, in order, over all days. */
  function Log(m: Machine, ops: seq<Op>, ch: Channel): seq<EventKind>
    requires m.month != []
    decreases ops
  {
    if ops == [] then []
    else Recordings(m, ops[0], ch) + Log(Apply(m, ops[0]), ops[1..], ch)
  }

  function Recordings(m: Machine, op: Op, ch: Channel): seq<EventKind>
    requires m.month != []
  {
    match op
    case Put(today, _, flag, values) =>
      var step := StepAt((if flag then NewSession(m, today) else m).session, values, ch);
      if step.event.Some? then [step.event.value] else []
    case _ => []
  }

  /** How the packets of a run move a channel: a reset makes the previous value zero. */
  function Moves(last: int, ops: seq<Op>, ch: Channel): seq<Move>
    decreases ops
  {
    if ops == [] then []
    else
      match ops[0]
      case Put(_, _, flag, values) =>
        [MoveOf(if flag then 0 else last, values[ch])] + Moves(values[ch], ops[1..], ch)
      case _ => Moves(last, ops[1..], ch)
  }

  predicate NoRestarts(ops: seq<Op>) {
    forall op :: op in ops ==> !op.Restart?
  }

  /** Starts count up, stops count down. */
  function Balance(log: seq<EventKind>): int {
    if log == [] then 0 else (if log[0] == Start then 1 else -1) + Balance(log[1..])
  }

  function Count(working: bool): int { if working then 1 else 0 }

  /** Changes of state that no event records: a restart on a later day forgets that a channel works. */
  function Forgotten(m: Machine, ops: seq<Op>, ch: Channel): int
    requires m.month != []
    decreases ops
  {
    if ops == [] then 0
    else
      (match ops[0]
       case Restart(today) => if today != Current(m).epoch then Count(m.session.working[ch]) else 0
       case _ => 0)
      + Forgotten(Apply(m, ops[0]), ops[1..], ch)
  }

  lemma {:induction false} BalanceConcat(a: seq<EventKind>, b: seq<EventKind>)
    ensures Balance(a + b) == Balance(a) + Balance(b)
  {
    if a == [] {
      assert a + b == b;
    } else {
      assert (a + b)[1..] == a[1..] + b;
      BalanceConcat(a[1..], b);
    }
  }

  lemma RestoredWorking(m: Machine, today: nat, ch: Channel)
    requires m.month != []
    ensures Startup(Shutdown(m), today).session.working[ch]
         == (today == Current(m).epoch && m.session.working[ch])
  {
    MaskRoundTrip(m.session.working);
  }

  /** Rolling over leaves the detection state alone. */
  lemma NewSessionKeepsState(m: Machine, today: nat)
    requires m.month != []
    ensures NewSession(m, today).session == m.session.(times := Zero())
  {
  }

  /** Starts and stops alternate: one step records an event exactly when the state changes. */
  lemma OneOp(m: Machine, op: Op, ch: Channel)
    requires m.month != []
    ensures Balance(Recordings(m, op, ch))
         == Count(Apply(m, op).session.working[ch]) - Count(m.session.working[ch])
            + if op.Restart? && op.today != Current(m).epoch then Count(m.session.working[ch]) else 0
    ensures |Recordings(m, op, ch)| <= 1
  {
    match op
    case Put(today, _, flag, _) => NewSessionKeepsState(m, today);
    case Save =>
    case Restart(today) => RestoredWorking(m, today, ch);
  }

  /** Over all days, starts minus stops tracks whether the channel works, except for the channels that
      a restart on a later day silently stops. */
  lemma {:induction false} StartsMinusStops(m: Machine, ops: seq<Op>, ch: Channel)
    requires m.month != []
    ensures Balance(Log(m, ops, ch))
         == Count(Run(m, ops).session.working[ch]) - Count(m.session.working[ch]) + Forgotten(m, ops, ch)
    decreases ops
  {
    if ops != [] {
      OneOp(m, ops[0], ch);
      StartsMinusStops(Apply(m, ops[0]), ops[1..], ch);
      BalanceConcat(Recordings(m, ops[0], ch), Log(Apply(m, ops[0]), ops[1..], ch));
    }
  }

  /** What a step records it appends to the current day's lists, and it touches no other day. */
  lemma RecordsAppended(m: Machine, today: nat, second: int, flag: bool, values: Times, ch: Channel)
    requires m.month != []
    ensures
      var before := if flag then NewSession(m, today) else m;
      var after := Apply(m, Put(today, second, flag, values));
      var log := Recordings(m, Put(today, second, flag, values), ch);
      && LastDay(after.month).starts[ch] == LastDay(before.month).starts[ch] + (if log == [Start] then [second] else [])
      && LastDay(after.month).stops[ch] == LastDay(before.month).stops[ch] + (if log == [Stop] then [second] else [])
      && after.month[..|after.month| - 1] == before.month[..|before.month| - 1] && after.oldMonth == before.oldMonth
      && (LastDay(before.month).epoch == LastDay(m.month).epoch ==>
            LastDay(before.month).starts == LastDay(m.month).starts && LastDay(before.month).stops == LastDay(m.month).stops)
      && (LastDay(before.month).epoch != LastDay(m.month).epoch ==>
            LastDay(before.month).starts[ch] == [] && LastDay(before.month).stops[ch] == [])
  {
  }

  lemma {:induction false} KindsFront(working: bool, n: nat)
    requires n > 0
    ensures Kinds(working, n) == [if working then Stop else Start] + Kinds(!working, n - 1)
  {
    if n > 1 {
      KindsFront(working, n - 1);
      assert working == (n % 2 == 0) <==> !working == ((n - 1) % 2 == 0);
    }
  }

  /** One step records at most one event, and exactly the change of state. */
  predicate OneChange(working: bool, first: seq<EventKind>, working': bool) {
    |first| <= 1 && Balance(first) == Count(working') - Count(working)
  }

  lemma OneOpChange(m: Machine, op: Op, ch: Channel)
    requires m.month != [] && !Silenced(m, op, ch)
    ensures OneChange(m.session.working[ch], Recordings(m, op, ch), Apply(m, op).session.working[ch])
  {
    OneOp(m, op, ch);
  }

  /** What one step records starts the alternation that goes on from the state after it. */
  lemma KindsOne(working: bool, first: seq<EventKind>, working': bool, n: nat)
    requires OneChange(working, first, working')
    ensures Kinds(working, |first| + n) == first + Kinds(working', n)
  {
    if first == [] {
      assert Balance(first) == 0 && working == working';
      assert first + Kinds(working', n) == Kinds(working', n);
    } else {
      var kind := first[0];
      assert first == [kind] && first[1..] == [];
      assert Balance(first) == (if kind == Start then 1 else -1) + Balance([]);
      KindsFront(working, 1 + n);
    }
  }

  /** A restart on a later day silently stops the channel. */
  predicate Silenced(m: Machine, op: Op, ch: Channel)
    requires m.month != []
  {
    op.Restart? && op.today != Current(m).epoch && m.session.working[ch]
  }

  /** After the first restart that silently stops the channel, nothing more is recorded for it. */
  predicate QuietAfter(m: Machine, ops: seq<Op>, ch: Channel)
    requires m.month != []
    decreases ops
  {
    ops != [] ==>
      if Silenced(m, ops[0], ch) then Log(Apply(m, ops[0]), ops[1..], ch) == []
      else QuietAfter(Apply(m, ops[0]), ops[1..], ch)
  }

  /** The first event of a channel that does not work is a start. */
  lemma {:induction false} FirstIsStart(m: Machine, ops: seq<Op>, ch: Channel)
    requires m.month != [] && !m.session.working[ch]
    ensures Log(m, ops, ch) != [] ==> Log(m, ops, ch)[0] == Start
    decreases ops
  {
    if ops != [] {
      OneOp(m, ops[0], ch);
      if Recordings(m, ops[0], ch) == [] {
        FirstIsStart(Apply(m, ops[0]), ops[1..], ch);
      }
    }
  }

  lemma SilencedStep(m: Machine, op: Op, ch: Channel)
    requires m.month != [] && Silenced(m, op, ch)
    ensures Recordings(m, op, ch) == [] && !Apply(m, op).session.working[ch]
  {
    RestoredWorking(m, op.today, ch);
  }

  predicate Alternates(working: bool, log: seq<EventKind>) {
    log == Kinds(working, |log|)
  }

  lemma StartWhileWorking(log: seq<EventKind>)
    requires log != [] && log[0] == Start
    ensures !Alternates(true, log)
  {
    KindsFront(true, |log|);
  }

  lemma AlternatesBehind(first: seq<EventKind>, log: seq<EventKind>, working: bool, working': bool)
    requires Kinds(working, |first| + |log|) == first + Kinds(working', |log|)
    ensures Alternates(working, first + log) <==> Alternates(working', log)
  {
    assert (first + log)[|first|..] == log;
    assert (first + Kinds(working', |log|))[|first|..] == Kinds(working', |log|);
  }

  /** Over any run, starts and stops of a channel alternate over all days if and only if nothing more is
      recorded after a restart on a later day has silently stopped it. */
  lemma {:induction false} Alternation(m: Machine, ops: seq<Op>, ch: Channel)
    requires m.month != []
    ensures Alternates(m.session.working[ch], Log(m, ops, ch)) <==> QuietAfter(m, ops, ch)
    decreases ops
  {
    if ops != [] {
      if Silenced(m, ops[0], ch) {
        SilencedBreaks(m, ops, ch);
      } else {
        Alternation(Apply(m, ops[0]), ops[1..], ch);
        StepAlternates(m, ops[0], Log(Apply(m, ops[0]), ops[1..], ch), ch);
      }
    }
  }

  /** A step that does not silence the channel leaves the alternation to the events behind it. */
  lemma StepAlternates(m: Machine, op: Op, log: seq<EventKind>, ch: Channel)
    requires m.month != [] && !Silenced(m, op, ch)
    ensures Alternates(m.session.working[ch], Recordings(m, op, ch) + log)
       <==> Alternates(Apply(m, op).session.working[ch], log)
  {
    var first, working, working' := Recordings(m, op, ch), m.session.working[ch], Apply(m, op).session.working[ch];
    OneOpChange(m, op, ch);
    KindsOne(working, first, working', |log|);
    AlternatesBehind(first, log, working, working');
  }

  lemma SilencedBreaks(m: Machine, ops: seq<Op>, ch: Channel)
    requires m.month != [] && ops != [] && Silenced(m, ops[0], ch)
    ensures Alternates(true, Log(m, ops, ch)) <==> Log(Apply(m, ops[0]), ops[1..], ch) == []
  {
    var log := Log(Apply(m, ops[0]), ops[1..], ch);
    SilencedStep(m, ops[0], ch);
    FirstIsStart(Apply(m, ops[0]), ops[1..], ch);
    assert [] + log == log;
    if log != [] {
      StartWhileWorking(log);
    }
  }

  // ---------------------------------------------------------------------------------------------
  // A run with two starts in a row
  // ---------------------------------------------------------------------------------------------

  function Each(n: int): Times { seq(CHANNELS, _ => n) }

  /** Three packets, each with one second more on every channel. */
  function ThreeRises(day: nat): seq<Op> {
    [Put(day, 1, false, Each(1)), Put(day, 2, false, Each(2)), Put(day, 3, false, Each(3))]
  }

  predicate Quiet(m: Machine, ch: Channel) {
    !m.session.working[ch] && m.session.pending[ch] == 0 && m.session.times[ch] == 0
  }

  lemma RisesStart(m: Machine, day: nat, ch: Channel)
    requires m.month != [] && Quiet(m, ch)
    ensures Log(m, ThreeRises(day), ch) == [Start] && Run(m, ThreeRises(day)).session.working[ch]
    ensures Current(Run(m, ThreeRises(day))).epoch == Current(m).epoch
  {
    var ops := ThreeRises(day);
    var m1 := Apply(m, ops[0]);
    var m2 := Apply(m1, ops[1]);
    var m3 := Apply(m2, ops[2]);
    assert m1.session.times[ch] == 1 && m1.session.pending[ch] == 1 && !m1.session.working[ch];
    assert m2.session.times[ch] == 2 && m2.session.pending[ch] == 2 && !m2.session.working[ch];
    assert m3.session.working[ch];
    assert ops[1..] == [ops[1], ops[2]] && ops[1..][1..] == [ops[2]] && ops[1..][1..][1..] == [];
    assert Run(m3, []) == m3 && Run(m2, [ops[2]]) == m3;
    assert Run(m1, ops[1..]) == m3;
    assert Log(m2, [ops[2]], ch) == [Start] + [];
  }

  lemma {:induction false} LogConcat(m: Machine, a: seq<Op>, b: seq<Op>, ch: Channel)
    requires m.month != []
    ensures Log(m, a + b, ch) == Log(m, a, ch) + Log(Run(m, a), b, ch)
    decreases a
  {
    if a == [] {
      assert a + b == b;
    } else {
      assert (a + b)[0] == a[0] && (a + b)[1..] == a[1..] + b;
      LogConcat(Apply(m, a[0]), a[1..], b, ch);
    }
  }

  lemma RestartQuiet(m: Machine, today: nat, ch: Channel)
    requires m.month != [] && today != Current(m).epoch
    ensures Quiet(Apply(m, Restart(today)), ch)
  {
  }

  lemma RestartThenStart(worked: Machine, rises: seq<Op>, ch: Channel)
    requires worked.month != [] && Log(Apply(worked, Restart(11)), rises, ch) == [Start]
    ensures Log(worked, [Restart(11)] + rises, ch) == [Start]
  {
    var ops := [Restart(11)] + rises;
    assert ops[0] == Restart(11) && ops[1..] == rises;
    assert Recordings(worked, ops[0], ch) == [];
    assert [] + [Start] == [Start];
  }

  lemma StartsAgain(m: Machine, first: seq<Op>, later: seq<Op>, ch: Channel)
    requires m.month != [] && Log(m, first, ch) == [Start] && Log(Run(m, first), later, ch) == [Start]
    ensures Log(m, first + later, ch) == [Start, Start]
  {
    LogConcat(m, first, later, ch);
    assert [Start] + [Start] == [Start, Start];
  }

  /** It starts to work on day 10, is restarted on a later day, and starts again. */
  lemma QuietStartsTwice(m: Machine, ch: Channel)
    requires m.month != [] && Quiet(m, ch) && Current(m).epoch == 10
    ensures Log(m, ThreeRises(10) + ([Restart(11)] + ThreeRises(11)), ch) == [Start, Start]
  {
    RisesStart(m, 10, ch);
    var worked := Run(m, ThreeRises(10));
    RestartQuiet(worked, 11, ch);
    RisesStart(Apply(worked, Restart(11)), 11, ch);
    RestartThenStart(worked, ThreeRises(11), ch);
    StartsAgain(m, ThreeRises(10), [Restart(11)] + ThreeRises(11), ch);
  }

  /** A new device that starts to work on day 10, is restarted on day 11 and starts again never stopped. */
  lemma TwoStarts(ch: Channel)
    ensures
      var m := Startup(Tables(map[], [], None), 10);
      m.month != [] && Log(m, ThreeRises(10) + ([Restart(11)] + ThreeRises(11)), ch) == [Start, Start]
  {
    var m := Startup(Tables(map[], [], None), 10);
    assert Current(m).epoch == 10 && Quiet(m, ch);
    QuietStartsTwice(m, ch);
  }

  // ---------------------------------------------------------------------------------------------
  // The machine's channels run the automaton
  // ---------------------------------------------------------------------------------------------

  /** The automaton over a trace from its front, as the machine runs it. */
  function RunForward(working: bool, pending: int, trace: seq<Move>): (bool, int, seq<EventKind>)
    decreases trace
  {
    if trace == [] then (working, pending, [])
    else
      var step := StepMove(working, pending, trace[0]);
      var rest := RunForward(step.working, step.pending, trace[1..]);
      (rest.0, rest.1, (if step.event.Some? then [step.event.value] else []) + rest.2)
  }

  lemma {:induction false} ForwardAppend(working: bool, pending: int, trace: seq<Move>, move: Move)
    ensures var before := RunForward(working, pending, trace);
            var step := StepMove(before.0, before.1, move);
            RunForward(working, pending, trace + [move])
            == (step.working, step.pending, before.2 + if step.event.Some? then [step.event.value] else [])
    decreases trace
  {
    if trace == [] {
      assert (trace + [move])[1..] == [] && (trace + [move])[0] == move;
      var step := StepMove(working, pending, move);
      var first := if step.event.Some? then [step.event.value] else [];
      assert first + [] == [] + first;
    } else {
      var step := StepMove(working, pending, trace[0]);
      assert (trace + [move])[1..] == trace[1..] + [move];
      ForwardAppend(step.working, step.pending, trace[1..], move);
      var rest := RunForward(step.working, step.pending, trace[1..]);
      var last := StepMove(rest.0, rest.1, move);
      var first := if step.event.Some? then [step.event.value] else [];
      var end := if last.event.Some? then [last.event.value] else [];
      assert first + (rest.2 + end) == (first + rest.2) + end;
    }
  }

  /** The kinds of `n` changes: into work a start, out of it a stop, in turn. */
  function Kinds(working: bool, n: nat): seq<EventKind> {
    if n == 0 then [] else Kinds(working, n - 1) + [if working == (n % 2 == 0) then Start else Stop]
  }

  lemma EventKindIs(working: bool, pending: int, move: Move)
    ensures var step := StepMove(working, pending, move);
            step.event.Some? ==> step.working != working && step.event.value == if working then Stop else Start
  {
  }

  lemma {:induction false} ForwardIsTrace(working: bool, trace: seq<Move>)
    ensures var s, f := RunTrace(working, 0, trace), RunForward(working, 0, trace);
            f.0 == s.working && f.1 == s.pending && f.2 == Kinds(working, |Flips(working, trace)|)
  {
    if trace != [] {
      var n := |trace| - 1;
      var init := trace[..n];
      assert trace == init + [trace[n]];
      ForwardIsTrace(working, init);
      ForwardAppend(working, 0, init, trace[n]);
      RunAppend(working, init, trace[n]);
      FlipsAlong(working, init, trace[n]);
    }
  }

  /** One more packet adds to the changes the kind the automaton records. */
  lemma FlipsAlong(working: bool, init: seq<Move>, move: Move)
    ensures
      var s := RunTrace(working, 0, init);
      var step := StepMove(s.working, s.pending, move);
      Kinds(working, |Flips(working, init + [move])|)
      == Kinds(working, |Flips(working, init)|) + if step.event.Some? then [step.event.value] else []
  {
    AutomatonIsTrace(working, init);
    AutomatonIsTrace(working, init + [move]);
    RunAppend(working, init, move);
    var s := RunTrace(working, 0, init);
    EventKindIs(s.working, s.pending, move);
  }

  /** Without restarts the moves of a channel need no day. */
  lemma {:induction false} ChannelRuns(m: Machine, ops: seq<Op>, ch: Channel)
    requires m.month != [] && NoRestarts(ops)
    ensures var f := RunForward(m.session.working[ch], m.session.pending[ch],
                                Moves(m.session.times[ch], ops, ch));
            && Log(m, ops, ch) == f.2
            && Run(m, ops).session.working[ch] == f.0
            && Run(m, ops).session.pending[ch] == f.1
    decreases ops
  {
    if ops != [] {
      assert ops[0] in ops;
      assert forall op :: op in ops[1..] ==> op in ops;
      ChannelRuns(Apply(m, ops[0]), ops[1..], ch);
      match ops[0]
      case Put(today, second, flag, values) =>
        NewSessionKeepsState(m, today);
        PutMoves(m, ops, ch);
      case Save =>
    }
  }

  lemma PutMoves(m: Machine, ops: seq<Op>, ch: Channel)
    requires m.month != [] && ops != [] && ops[0].Put?
    ensures var op := ops[0];
            var step := StepMove(m.session.working[ch], m.session.pending[ch],
                                 MoveOf(if op.flag then 0 else m.session.times[ch], op.values[ch]));
            && Apply(m, op).session.working[ch] == step.working
            && Apply(m, op).session.pending[ch] == step.pending
            && Apply(m, op).session.times[ch] == op.values[ch]
            && Recordings(m, op, ch) == (if step.event.Some? then [step.event.value] else [])
            && Moves(m.session.times[ch], ops, ch)
               == [MoveOf(if op.flag then 0 else m.session.times[ch], op.values[ch])]
                  + Moves(op.values[ch], ops[1..], ch)
  {
    NewSessionKeepsState(m, ops[0].today);
  }

  /** The whole of detection for a channel: over any run without restarts, from a quiet state, the
      machine records starts and stops alternately, one for every change of the trace definition. */
  lemma DetectionIsTrace(m: Machine, ops: seq<Op>, ch: Channel)
    requires m.month != [] && NoRestarts(ops) && m.session.pending[ch] == 0
    ensures var trace := Moves(m.session.times[ch], ops, ch);
            var events := Flips(m.session.working[ch], trace);
            && Log(m, ops, ch) == Kinds(m.session.working[ch], |events|)
            && Run(m, ops).session.working[ch] == StateAfter(m.session.working[ch], events)
            && 0 <= Run(m, ops).session.pending[ch] <= 2
  {
    var trace := Moves(m.session.times[ch], ops, ch);
    ChannelRuns(m, ops, ch);
    ForwardIsTrace(m.session.working[ch], trace);
    AutomatonIsTrace(m.session.working[ch], trace);
  }
}
