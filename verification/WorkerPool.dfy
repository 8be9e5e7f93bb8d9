/** The connection pool (WorkerPool.java) as threads that interleave at every access to what they
    share: who owns each connection, and what the pool's counters count. */
module WorkerPool {
  import opened Options

  /** A submitted connection, by number. */
  type Task = nat

  datatype Config = Config(minWorkers: nat, maxWorkers: nat, idleHigh: nat, debounce: int,
                           guardMin: nat, guardMax: nat, threshold: int, pollTimeout: nat)

  /** What the threads share, and the history the counters are compared with. */
  datatype Shared = Shared(queue: seq<Task>, guardQueue: seq<Task>,
                           total: int, idle: int, guardThreads: int, guarded: int, backlogStart: int,
                           submitted: seq<Task>, closed: seq<Task>, abandoned: seq<Task>,
                           grown: nat, retired: nat)

  // ---------------------------------------------------------------------------------------------
  // Threads
  // ---------------------------------------------------------------------------------------------

  /** Where a thread is in `maybeGrow`. */
  datatype Grow =
    | CheckIdle
    | ResetStart
    | ReadStart(now: int)
    | MarkStart(now: int)
    | Decide(now: int, start: int)
    | AddTotal
    | AddIdle
    | StartWorker
    | ClearBacklog

  /** A caller of `submit`. */
  datatype Caller = Submitting(task: Task) | CallerGrows(grow: Grow) | Returned

  /** Where a worker is in `workerLoop`, and in `handleTask`, `guard` and `spawnWorker` called from it. */
  datatype Worker =
    | Waiting
    | ReadIdle(total: int)
    | Took(task: Task)
    | Handling(task: Task)
    | Guarding(task: Task)
    | QueueGuarded(task: Task)
    | ReadThreads
    | ReadGuarded(threads: int)
    | AddGuardThread
    | StartGuard
    | Freed
    | Crashed(task: Task)
    | Respawn
    | RespawnIdle
    | RespawnStart
    | Leaving
    | Gone

  /** Where a guard is in `guardLoop`. */
  datatype Guard =
    | GuardWaiting
    | Polling(task: Task)
    | Ready(task: Task)
    | Broken
    | GuardGrows(grow: Grow)
    | GuardLeaving
    | GuardGone

  /** What the surroundings decide in a step: whether a poll timed out, and how handling or polling a
      connection ends. */
  datatype Input = TimedOut | Found | KeptAlive | Finished | Failed | Threw

  datatype Thread = C(caller: Caller) | W(worker: Worker) | G(guard: Guard)

  /** The next state of what is shared and of the thread, and a thread it starts. */
  datatype Move<T> = Move(shared: Shared, next: T, born: Option<Thread>)

  function Stay<T>(sh: Shared, next: T): Move<T> { Move(sh, next, None) }

  // ---------------------------------------------------------------------------------------------
  // Steps
  // ---------------------------------------------------------------------------------------------

  /** One step of `maybeGrow`; None when it returns. */
  function GrowStep(c: Config, sh: Shared, g: Grow, now: int): Move<Option<Grow>> {
    match g
    case CheckIdle =>
      Stay(sh, Some(if sh.idle > 0 then ResetStart else ReadStart(now)))
    case ResetStart => Stay(sh.(backlogStart := 0), None)
    case ReadStart(at) =>
      Stay(sh, Some(if sh.backlogStart == 0 then MarkStart(at) else Decide(at, sh.backlogStart)))
    case MarkStart(at) => Stay(sh.(backlogStart := at), None)
    case Decide(at, start) =>
      if at - start >= c.debounce && sh.total < c.maxWorkers then Stay(sh, Some(AddTotal)) else Stay(sh, None)
    case AddTotal => Stay(sh.(total := sh.total + 1, grown := sh.grown + 1), Some(AddIdle))
    case AddIdle => Stay(sh.(idle := sh.idle + 1), Some(StartWorker))
    case StartWorker => Move(sh, Some(ClearBacklog), Some(W(Waiting)))
    case ClearBacklog => Stay(sh.(backlogStart := 0), None)
  }

  function Queued(sh: Shared, task: Task): Shared {
    sh.(queue := sh.queue + [task])
  }

  function Closed(sh: Shared, task: Task): Shared {
    sh.(closed := sh.closed + [task])
  }

  function CallerStep(c: Config, sh: Shared, t: Caller, now: int): Move<Caller> {
    match t
    case Submitting(task) => Stay(Queued(sh, task), CallerGrows(CheckIdle))
    case CallerGrows(g) =>
      var m := GrowStep(c, sh, g, now);
      Move(m.shared, if m.next.None? then Returned else CallerGrows(m.next.value), m.born)
    case Returned => Stay(sh, Returned)
  }

  /** `shouldRetire`: the share of idle workers is above the limit, in percent. */
  predicate TooIdle(c: Config, idle: int, total: int) {
    idle * 100 > c.idleHigh * total
  }

  function WorkerStep(c: Config, sh: Shared, w: Worker, input: Input): Move<Worker> {
    match w
    case Waiting =>
      if input.TimedOut? then
        if sh.total <= c.minWorkers then Stay(sh, Waiting) else Stay(sh, ReadIdle(sh.total))
      else if sh.queue != [] then Stay(sh.(queue := sh.queue[1..]), Took(sh.queue[0]))
      else Stay(sh, Waiting)
    case ReadIdle(total) =>
      if TooIdle(c, sh.idle, total) then Stay(sh.(retired := sh.retired + 1), Leaving) else Stay(sh, Waiting)
    case Took(task) => Stay(sh.(idle := sh.idle - 1), Handling(task))
    case Handling(task) =>
      if input.KeptAlive? then Stay(sh, Guarding(task))
      else if input.Threw? then Stay(sh, Crashed(task))
      else Stay(Closed(sh, task), Freed)
    case Guarding(task) => Stay(sh.(guarded := sh.guarded + 1), QueueGuarded(task))
    case QueueGuarded(task) => Stay(sh.(guardQueue := sh.guardQueue + [task]), ReadThreads)
    case ReadThreads =>
      if sh.guardThreads <= 0 || sh.guardThreads >= c.guardMax then Stay(sh, Freed)
      else Stay(sh, ReadGuarded(sh.guardThreads))
    case ReadGuarded(threads) =>
      if threads > 0 && sh.guarded >= 0 && (sh.guarded / threads) * c.pollTimeout > c.threshold
      then Stay(sh, AddGuardThread) else Stay(sh, Freed)
    case AddGuardThread => Stay(sh.(guardThreads := sh.guardThreads + 1), StartGuard)
    case StartGuard => Move(sh, Freed, Some(G(GuardWaiting)))
    case Freed => Stay(sh.(idle := sh.idle + 1), Waiting)
    case Crashed(task) => Stay(Closed(sh, task), Respawn)
    case Respawn => Stay(sh.(total := sh.total + 1), RespawnIdle)
    case RespawnIdle => Stay(sh.(idle := sh.idle + 1), RespawnStart)
    case RespawnStart => Move(sh, Leaving, Some(W(Waiting)))
    case Leaving => Stay(sh.(total := sh.total - 1), Gone)
    case Gone => Stay(sh, Gone)
  }

  /** An unchecked exception leaves the loop with the connection in hand. */
  function GuardStep(c: Config, sh: Shared, g: Guard, input: Input, now: int): Move<Guard> {
    match g
    case GuardWaiting =>
      if input.TimedOut? then
        if sh.guardThreads > c.guardMin then Stay(sh, GuardLeaving) else Stay(sh, GuardWaiting)
      else if sh.guardQueue != [] then Stay(sh.(guardQueue := sh.guardQueue[1..]), Polling(sh.guardQueue[0]))
      else Stay(sh, GuardWaiting)
    case Polling(task) =>
      if input.Found? then Stay(sh.(guarded := sh.guarded - 1), Ready(task))
      else if input.Failed? then Stay(Closed(sh, task), Broken)
      else if input.Threw? then Stay(sh.(abandoned := sh.abandoned + [task]), GuardLeaving)
      else Stay(sh.(guardQueue := sh.guardQueue + [task]), GuardWaiting)
    case Ready(task) => Stay(Queued(sh, task), GuardGrows(CheckIdle))
    case Broken => Stay(sh.(guarded := sh.guarded - 1), GuardWaiting)
    case GuardGrows(grow) =>
      var m := GrowStep(c, sh, grow, now);
      Move(m.shared, if m.next.None? then GuardWaiting else GuardGrows(m.next.value), m.born)
    case GuardLeaving => Stay(sh.(guardThreads := sh.guardThreads - 1), GuardGone)
    case GuardGone => Stay(sh, GuardGone)
  }

  function ThreadStep(c: Config, sh: Shared, th: Thread, input: Input, now: int): Move<Thread> {
    match th
    case C(t) => var m := CallerStep(c, sh, t, now); Move(m.shared, C(m.next), m.born)
    case W(w) => var m := WorkerStep(c, sh, w, input); Move(m.shared, W(m.next), m.born)
    case G(g) => var m := GuardStep(c, sh, g, input, now); Move(m.shared, G(m.next), m.born)
  }

  // ---------------------------------------------------------------------------------------------
  // The pool
  // ---------------------------------------------------------------------------------------------

  datatype Pool = Pool(shared: Shared, threads: seq<Thread>)

  /** A new connection is submitted, or some thread moves. */
  datatype Action = Submit(task: Task) | Moves(i: nat, input: Input, now: int)

  predicate Possible(p: Pool, a: Action) {
    a.Moves? ==> a.i < |p.threads|
  }

  function Next(c: Config, p: Pool, a: Action): Pool
    requires Possible(p, a)
  {
    match a
    case Submit(task) =>
      Pool(Submitted(p.shared, task), p.threads + [C(Submitting(task))])
    case Moves(i, input, now) =>
      var m := ThreadStep(c, p.shared, p.threads[i], input, now);
      Pool(m.shared, WithBorn(p.threads[i := m.next], m.born))
  }

  function WithBorn(ts: seq<Thread>, born: Option<Thread>): seq<Thread> {
    if born.None? then ts else ts + [born.value]
  }

  function NewPool(c: Config): Pool {
    Pool(Shared([], [], c.minWorkers, c.minWorkers, c.guardMin, 0, 0, [], [], [], 0, 0),
         Copies(W(Waiting), c.minWorkers) + Copies(G(GuardWaiting), c.guardMin))
  }

  function Copies(t: Thread, n: nat): (r: seq<Thread>)
    ensures |r| == n
  {
    if n == 0 then [] else Copies(t, n - 1) + [t]
  }

  // ---------------------------------------------------------------------------------------------
  // What a thread accounts for
  // ---------------------------------------------------------------------------------------------

  /** How often a thread holds one given connection, and its share of every counter: workers counted in
      `totalWorkers` or about to run, idle ones, connections under guard, guard threads, and workers
      counted beyond the pool's size because they leave or are being replaced. */
  datatype Load = Load(held: int, total: int, idle: int, guarded: int, guardThreads: int, spare: int)

  function NoLoad(): Load { Load(0, 0, 0, 0, 0, 0) }

  function Plus(a: Load, b: Load): Load {
    Load(a.held + b.held, a.total + b.total, a.idle + b.idle, a.guarded + b.guarded,
         a.guardThreads + b.guardThreads, a.spare + b.spare)
  }

  function Is(task: Task, t: Task): nat { if task == t then 1 else 0 }

  function Count(tasks: seq<Task>, t: Task): nat {
    if tasks == [] then 0 else Count(tasks[..|tasks| - 1], t) + Is(tasks[|tasks| - 1], t)
  }

  function GrowLoad(g: Grow): Load {
    match g
    case AddIdle => Load(0, 1, 0, 0, 0, 0)
    case StartWorker => Load(0, 1, 1, 0, 0, 0)
    case _ => NoLoad()
  }

  function CallerLoad(th: Caller, t: Task): Load {
    match th
    case Submitting(task) => Load(Is(task, t), 0, 0, 0, 0, 0)
    case CallerGrows(g) => GrowLoad(g)
    case Returned => NoLoad()
  }

  function WorkerLoad(w: Worker, t: Task): Load {
    match w
    case Waiting => Load(0, 1, 1, 0, 0, 0)
    case ReadIdle(_) => Load(0, 1, 1, 0, 0, 0)
    case Took(task) => Load(Is(task, t), 1, 1, 0, 0, 0)
    case Handling(task) => Load(Is(task, t), 1, 0, 0, 0, 0)
    case Guarding(task) => Load(Is(task, t), 1, 0, 0, 0, 0)
    case QueueGuarded(task) => Load(Is(task, t), 1, 0, 1, 0, 0)
    case ReadThreads => Load(0, 1, 0, 0, 0, 0)
    case ReadGuarded(_) => Load(0, 1, 0, 0, 0, 0)
    case AddGuardThread => Load(0, 1, 0, 0, 0, 0)
    case StartGuard => Load(0, 1, 0, 0, 1, 0)
    case Freed => Load(0, 1, 0, 0, 0, 0)
    case Crashed(task) => Load(Is(task, t), 1, 0, 0, 0, 0)
    case Respawn => Load(0, 1, 0, 0, 0, 0)
    case RespawnIdle => Load(0, 2, 0, 0, 0, 1)
    case RespawnStart => Load(0, 2, 1, 0, 0, 1)
    case Leaving => Load(0, 1, 0, 0, 0, 1)
    case Gone => NoLoad()
  }

  function GuardLoad(g: Guard, t: Task): Load {
    match g
    case GuardWaiting => Load(0, 0, 0, 0, 1, 0)
    case Polling(task) => Load(Is(task, t), 0, 0, 1, 1, 0)
    case Ready(task) => Load(Is(task, t), 0, 0, 0, 1, 0)
    case Broken => Load(0, 0, 0, 1, 1, 0)
    case GuardGrows(grow) => Beside(GrowLoad(grow))
    case GuardLeaving => Load(0, 0, 0, 0, 1, 0)
    case GuardGone => NoLoad()
  }

  function ThreadLoad(th: Thread, t: Task): Load {
    match th
    case C(caller) => CallerLoad(caller, t)
    case W(worker) => WorkerLoad(worker, t)
    case G(guard) => GuardLoad(guard, t)
  }

  function Sum(ts: seq<Thread>, t: Task): Load {
    if ts == [] then NoLoad() else Plus(Sum(ts[..|ts| - 1], t), ThreadLoad(ts[|ts| - 1], t))
  }

  /** Where a connection is outside the threads' hands. */
  function Elsewhere(sh: Shared, t: Task): int {
    Count(sh.queue, t) + Count(sh.guardQueue, t) + Count(sh.closed, t) + Count(sh.abandoned, t)
  }

  /** What the threads together must account for: the submissions of a connection that are not
      elsewhere, and every counter less what it counts outside the threads. `idleWorkers` still counts
      the workers that retired, `guardedCount` the connections that wait or were abandoned under guard. */
  function Due(c: Config, sh: Shared, t: Task): Load {
    Load(Count(sh.submitted, t) - Elsewhere(sh, t), sh.total, sh.idle - sh.retired,
         sh.guarded - |sh.guardQueue| - |sh.abandoned|, sh.guardThreads,
         sh.total - c.minWorkers - sh.grown + sh.retired)
  }

  predicate Accounted(c: Config, p: Pool, t: Task) {
    Sum(p.threads, t) == Due(c, p.shared, t)
  }

  ghost predicate Inv(c: Config, p: Pool) {
    forall t: Task :: Accounted(c, p, t)
  }

  // ---------------------------------------------------------------------------------------------
  // Sums
  // ---------------------------------------------------------------------------------------------

  lemma SumAdd(ts: seq<Thread>, th: Thread, t: Task)
    ensures Sum(ts + [th], t) == Plus(Sum(ts, t), ThreadLoad(th, t))
  {
    assert (ts + [th])[..|ts|] == ts;
  }

  lemma {:induction false} SumUpdate(ts: seq<Thread>, i: nat, th: Thread, t: Task)
    requires i < |ts|
    ensures Plus(Sum(ts[i := th], t), ThreadLoad(ts[i], t)) == Plus(Sum(ts, t), ThreadLoad(th, t))
  {
    var n := |ts| - 1;
    if i < n {
      SumUpdate(ts[..n], i, th, t);
      assert ts[i := th][..n] == ts[..n][i := th];
    } else {
      assert ts[i := th][..n] == ts[..n];
    }
  }

  lemma {:induction false} SumWaiting(n: nat, t: Task)
    ensures Sum(Copies(W(Waiting), n), t) == Load(0, n, n, 0, 0, 0)
  {
    if n > 0 {
      SumWaiting(n - 1, t);
      SumAdd(Copies(W(Waiting), n - 1), W(Waiting), t);
      assert ThreadLoad(W(Waiting), t) == Load(0, 1, 1, 0, 0, 0);
      assert Copies(W(Waiting), n) == Copies(W(Waiting), n - 1) + [W(Waiting)];
    }
  }

  lemma {:induction false} SumGuards(ts: seq<Thread>, n: nat, t: Task)
    ensures Sum(ts + Copies(G(GuardWaiting), n), t) == Plus(Sum(ts, t), Load(0, 0, 0, 0, n, 0))
  {
    var g := G(GuardWaiting);
    if n == 0 {
      assert ts + Copies(g, 0) == ts;
    } else {
      SumGuards(ts, n - 1, t);
      var before := ts + Copies(g, n - 1);
      assert ts + Copies(g, n) == before + [g];
      SumAdd(before, g, t);
      assert ThreadLoad(g, t) == Load(0, 0, 0, 0, 1, 0);
      assert Sum(before, t) == Plus(Sum(ts, t), Load(0, 0, 0, 0, n - 1, 0));
    }
  }

  lemma Pushed(q: seq<Task>, task: Task, t: Task)
    ensures Count(q + [task], t) == Count(q, t) + Is(task, t)
  {
    assert (q + [task])[..|q|] == q;
  }

  lemma {:induction false} Popped(q: seq<Task>, t: Task)
    requires q != []
    ensures Count(q, t) == Is(q[0], t) + Count(q[1..], t)
  {
    var n := |q| - 1;
    if n > 0 {
      Popped(q[..n], t);
      assert q[..n][1..] == q[1..][..n - 1];
    }
  }

  // ---------------------------------------------------------------------------------------------
  // Every step keeps the accounts
  // ---------------------------------------------------------------------------------------------

  /** A move changes what is due by what it changes in the thread and the new thread. */
  predicate Balanced(c: Config, sh: Shared, before: Load, sh': Shared, after: Load, born: Option<Thread>, t: Task) {
    Plus(Due(c, sh', t), before) == Plus(Plus(Due(c, sh, t), after), BornLoad(born, t))
  }

  function BornLoad(born: Option<Thread>, t: Task): Load {
    if born.None? then NoLoad() else ThreadLoad(born.value, t)
  }

  function MaybeGrowLoad(g: Option<Grow>): Load {
    if g.None? then NoLoad() else GrowLoad(g.value)
  }

  lemma GrowBalanced(c: Config, sh: Shared, g: Grow, now: int, t: Task)
    ensures
      var m := GrowStep(c, sh, g, now);
      Balanced(c, sh, GrowLoad(g), m.shared, MaybeGrowLoad(m.next), m.born, t)
  {
  }

  /** Queueing or closing a connection takes it off what is due, and nothing else. */
  lemma DueQueued(c: Config, sh: Shared, task: Task, t: Task)
    ensures
      var due := Due(c, sh, t);
      Due(c, Queued(sh, task), t) == due.(held := due.held - Is(task, t))
  {
    Pushed(sh.queue, task, t);
  }

  lemma DueClosed(c: Config, sh: Shared, task: Task, t: Task)
    ensures
      var due := Due(c, sh, t);
      Due(c, Closed(sh, task), t) == due.(held := due.held - Is(task, t))
  {
    Pushed(sh.closed, task, t);
  }

  /** A move that puts the thread's connection somewhere else. */
  lemma HandedOn(c: Config, sh: Shared, before: Load, sh': Shared, after: Load, n: int, t: Task)
    requires Due(c, sh', t) == Due(c, sh, t).(held := Due(c, sh, t).held - n)
    requires after == before.(held := before.held - n)
    ensures Balanced(c, sh, before, sh', after, None, t)
  {
  }

  lemma SubmittingBalanced(c: Config, sh: Shared, task: Task, now: int, t: Task)
    ensures
      var m := CallerStep(c, sh, Submitting(task), now);
      Balanced(c, sh, CallerLoad(Submitting(task), t), m.shared, CallerLoad(m.next, t), m.born, t)
  {
    DueQueued(c, sh, task, t);
    HandedOn(c, sh, CallerLoad(Submitting(task), t), Queued(sh, task), NoLoad(), Is(task, t), t);
  }

  lemma CallerBalanced(c: Config, sh: Shared, th: Caller, now: int, t: Task)
    ensures
      var m := CallerStep(c, sh, th, now);
      Balanced(c, sh, CallerLoad(th, t), m.shared, CallerLoad(m.next, t), m.born, t)
  {
    match th
    case Submitting(task) => SubmittingBalanced(c, sh, task, now, t);
    case CallerGrows(g) => GrowBalanced(c, sh, g, now, t);
    case Returned =>
  }

  predicate WorkerBalances(c: Config, sh: Shared, w: Worker, input: Input, t: Task) {
    var m := WorkerStep(c, sh, w, input);
    Balanced(c, sh, WorkerLoad(w, t), m.shared, WorkerLoad(m.next, t), m.born, t)
  }

  lemma IdleBalanced(c: Config, sh: Shared, w: Worker, input: Input, t: Task)
    requires w.ReadIdle? || w.Took? || w.Freed?
    ensures WorkerBalances(c, sh, w, input, t)
  {
  }

  lemma WaitingBalanced(c: Config, sh: Shared, input: Input, t: Task)
    ensures WorkerBalances(c, sh, Waiting, input, t)
  {
    if sh.queue != [] {
      Popped(sh.queue, t);
    }
  }

  lemma HandlingBalanced(c: Config, sh: Shared, task: Task, input: Input, t: Task)
    ensures WorkerBalances(c, sh, Handling(task), input, t)
  {
    if input.KeptAlive? {
      assert WorkerStep(c, sh, Handling(task), input) == Stay(sh, Guarding(task));
    } else if input.Threw? {
      assert WorkerStep(c, sh, Handling(task), input) == Stay(sh, Crashed(task));
    } else {
      assert WorkerStep(c, sh, Handling(task), input) == Stay(Closed(sh, task), Freed);
      DueClosed(c, sh, task, t);
      HandedOn(c, sh, WorkerLoad(Handling(task), t), Closed(sh, task), WorkerLoad(Freed, t), Is(task, t), t);
    }
  }

  lemma CrashedBalanced(c: Config, sh: Shared, task: Task, input: Input, t: Task)
    ensures WorkerBalances(c, sh, Crashed(task), input, t)
  {
    assert WorkerStep(c, sh, Crashed(task), input) == Stay(Closed(sh, task), Respawn);
    DueClosed(c, sh, task, t);
    HandedOn(c, sh, WorkerLoad(Crashed(task), t), Closed(sh, task), WorkerLoad(Respawn, t), Is(task, t), t);
  }

  lemma GuardingBalanced(c: Config, sh: Shared, w: Worker, input: Input, t: Task)
    requires w.Guarding? || w.QueueGuarded?
    ensures WorkerBalances(c, sh, w, input, t)
  {
    Pushed(sh.guardQueue, w.task, t);
  }

  lemma SpawningBalanced(c: Config, sh: Shared, w: Worker, input: Input, t: Task)
    requires w.ReadThreads? || w.ReadGuarded? || w.AddGuardThread? || w.StartGuard?
    ensures WorkerBalances(c, sh, w, input, t)
  {
  }

  lemma LeavingBalanced(c: Config, sh: Shared, w: Worker, input: Input, t: Task)
    requires w.Respawn? || w.RespawnIdle? || w.RespawnStart? || w.Leaving? || w.Gone?
    ensures WorkerBalances(c, sh, w, input, t)
  {
  }

  lemma WorkerBalanced(c: Config, sh: Shared, w: Worker, input: Input, t: Task)
    ensures WorkerBalances(c, sh, w, input, t)
  {
    if w.Waiting? {
      WaitingBalanced(c, sh, input, t);
    } else if w.ReadIdle? || w.Took? || w.Freed? {
      IdleBalanced(c, sh, w, input, t);
    } else if w.Handling? {
      HandlingBalanced(c, sh, w.task, input, t);
    } else if w.Crashed? {
      CrashedBalanced(c, sh, w.task, input, t);
    } else if w.Guarding? || w.QueueGuarded? {
      GuardingBalanced(c, sh, w, input, t);
    } else if w.ReadThreads? || w.ReadGuarded? || w.AddGuardThread? || w.StartGuard? {
      SpawningBalanced(c, sh, w, input, t);
    } else {
      LeavingBalanced(c, sh, w, input, t);
    }
  }

  predicate GuardBalances(c: Config, sh: Shared, g: Guard, input: Input, now: int, t: Task) {
    var m := GuardStep(c, sh, g, input, now);
    Balanced(c, sh, GuardLoad(g, t), m.shared, GuardLoad(m.next, t), m.born, t)
  }

  lemma PollingBalanced(c: Config, sh: Shared, task: Task, input: Input, now: int, t: Task)
    ensures GuardBalances(c, sh, Polling(task), input, now, t)
  {
    match input
    case Found =>
    case Failed => DueClosed(c, sh, task, t);
    case Threw => ThrewBalanced(c, sh, task, now, t);
    case _ => RequeuedBalanced(c, sh, task, input, now, t);
  }

  lemma RequeuedBalanced(c: Config, sh: Shared, task: Task, input: Input, now: int, t: Task)
    requires !input.Found? && !input.Failed? && !input.Threw?
    ensures GuardBalances(c, sh, Polling(task), input, now, t)
  {
    Pushed(sh.guardQueue, task, t);
  }

  lemma ThrewBalanced(c: Config, sh: Shared, task: Task, now: int, t: Task)
    ensures GuardBalances(c, sh, Polling(task), Threw, now, t)
  {
    Pushed(sh.abandoned, task, t);
  }

  lemma GuardWaitingBalanced(c: Config, sh: Shared, input: Input, now: int, t: Task)
    ensures GuardBalances(c, sh, GuardWaiting, input, now, t)
  {
    if sh.guardQueue != [] {
      Popped(sh.guardQueue, t);
    }
  }

  lemma GuardGrowsBalanced(c: Config, sh: Shared, grow: Grow, input: Input, now: int, t: Task)
    ensures GuardBalances(c, sh, GuardGrows(grow), input, now, t)
  {
    var m := GrowStep(c, sh, grow, now);
    GrowBalanced(c, sh, grow, now, t);
    BalancedBeside(c, sh, GrowLoad(grow), m.shared, MaybeGrowLoad(m.next), m.born, t);
    GuardNext(m.next, t);
  }

  lemma GuardNext(next: Option<Grow>, t: Task)
    ensures GuardLoad(if next.None? then GuardWaiting else GuardGrows(next.value), t) == Beside(MaybeGrowLoad(next))
  {
  }

  /** The load of a guard thread that does something more. */
  function Beside(l: Load): Load { l.(guardThreads := l.guardThreads + 1) }

  lemma BalancedBeside(c: Config, sh: Shared, before: Load, sh': Shared, after: Load, born: Option<Thread>, t: Task)
    requires Balanced(c, sh, before, sh', after, born, t)
    ensures Balanced(c, sh, Beside(before), sh', Beside(after), born, t)
  {
  }

  lemma GuardMovesOn(c: Config, sh: Shared, g: Guard, input: Input, now: int, t: Task)
    requires g.Ready? || g.Broken? || g.GuardLeaving? || g.GuardGone?
    ensures GuardBalances(c, sh, g, input, now, t)
  {
    if g.Ready? {
      DueQueued(c, sh, g.task, t);
      HandedOn(c, sh, GuardLoad(g, t), Queued(sh, g.task), GuardLoad(GuardGrows(CheckIdle), t), Is(g.task, t), t);
    }
  }

  lemma GuardBalanced(c: Config, sh: Shared, g: Guard, input: Input, now: int, t: Task)
    ensures GuardBalances(c, sh, g, input, now, t)
  {
    if g.GuardWaiting? {
      GuardWaitingBalanced(c, sh, input, now, t);
    } else if g.Polling? {
      PollingBalanced(c, sh, g.task, input, now, t);
    } else if g.GuardGrows? {
      GuardGrowsBalanced(c, sh, g.grow, input, now, t);
    } else {
      GuardMovesOn(c, sh, g, input, now, t);
    }
  }

  lemma ThreadBalanced(c: Config, sh: Shared, th: Thread, input: Input, now: int, t: Task)
    ensures
      var m := ThreadStep(c, sh, th, input, now);
      Balanced(c, sh, ThreadLoad(th, t), m.shared, ThreadLoad(m.next, t), m.born, t)
  {
    match th
    case C(caller) => CallerBalanced(c, sh, caller, now, t);
    case W(worker) => WorkerBalanced(c, sh, worker, input, t);
    case G(guard) => GuardBalanced(c, sh, guard, input, now, t);
  }

  lemma InvNew(c: Config)
    ensures Inv(c, NewPool(c))
  {
    forall t: Task
      ensures Accounted(c, NewPool(c), t)
    {
      SumWaiting(c.minWorkers, t);
      SumGuards(Copies(W(Waiting), c.minWorkers), c.guardMin, t);
    }
  }

  /** The sums before and after a move, the thread's loads and what is due. */
  lemma MoveMath(sum: Load, sum': Load, before: Load, after: Load, born: Load, due: Load, due': Load)
    requires sum == due && Plus(sum', before) == Plus(sum, after)
    requires Plus(due', before) == Plus(Plus(due, after), born)
    ensures Plus(sum', born) == due'
  {
  }

  lemma MoveAccounted(c: Config, p: Pool, i: nat, input: Input, now: int, t: Task)
    requires Accounted(c, p, t) && i < |p.threads|
    ensures Accounted(c, Next(c, p, Moves(i, input, now)), t)
  {
    var m := ThreadStep(c, p.shared, p.threads[i], input, now);
    ThreadBalanced(c, p.shared, p.threads[i], input, now, t);
    SumUpdate(p.threads, i, m.next, t);
    MoveMath(Sum(p.threads, t), Sum(p.threads[i := m.next], t), ThreadLoad(p.threads[i], t), ThreadLoad(m.next, t),
             BornLoad(m.born, t), Due(c, p.shared, t), Due(c, m.shared, t));
    SumBorn(p.threads[i := m.next], m.born, t);
  }

  lemma SumBorn(ts: seq<Thread>, born: Option<Thread>, t: Task)
    ensures Sum(WithBorn(ts, born), t) == Plus(Sum(ts, t), BornLoad(born, t))
  {
    if born.Some? {
      SumAdd(ts, born.value, t);
    }
  }

  function Submitted(sh: Shared, task: Task): Shared {
    sh.(submitted := sh.submitted + [task])
  }

  lemma DueSubmitted(c: Config, sh: Shared, task: Task, t: Task)
    ensures Due(c, Submitted(sh, task), t) == Plus(Due(c, sh, t), ThreadLoad(C(Submitting(task)), t))
  {
    Pushed(sh.submitted, task, t);
  }

  lemma SubmitAccounted(c: Config, p: Pool, task: Task, t: Task)
    requires Accounted(c, p, t)
    ensures Accounted(c, Next(c, p, Submit(task)), t)
  {
    SumAdd(p.threads, C(Submitting(task)), t);
    DueSubmitted(c, p.shared, task, t);
  }

  lemma AccountedNext(c: Config, p: Pool, a: Action, t: Task)
    requires Accounted(c, p, t) && Possible(p, a)
    ensures Accounted(c, Next(c, p, a), t)
  {
    if a.Submit? {
      SubmitAccounted(c, p, a.task, t);
    } else {
      MoveAccounted(c, p, a.i, a.input, a.now, t);
    }
  }

  /** Whatever thread moves, the connections and the counters stay accounted for. */
  lemma InvNext(c: Config, p: Pool, a: Action)
    requires Inv(c, p) && Possible(p, a)
    ensures Inv(c, Next(c, p, a))
  {
    forall t: Task
      ensures Accounted(c, Next(c, p, a), t)
    {
      AccountedNext(c, p, a, t);
    }
  }

  // ---------------------------------------------------------------------------------------------
  // Whole runs
  // ---------------------------------------------------------------------------------------------

  predicate AllPossible(c: Config, p: Pool, actions: seq<Action>)
    decreases actions
  {
    actions != [] ==> Possible(p, actions[0]) && AllPossible(c, Next(c, p, actions[0]), actions[1..])
  }

  function After(c: Config, p: Pool, actions: seq<Action>): Pool
    requires AllPossible(c, p, actions)
    decreases actions
  {
    if actions == [] then p else After(c, Next(c, p, actions[0]), actions[1..])
  }

  lemma {:induction false} InvAfter(c: Config, p: Pool, actions: seq<Action>)
    requires Inv(c, p) && AllPossible(c, p, actions)
    ensures Inv(c, After(c, p, actions))
    decreases actions
  {
    if actions != [] {
      InvNext(c, p, actions[0]);
      InvAfter(c, Next(c, p, actions[0]), actions[1..]);
    }
  }

  // ---------------------------------------------------------------------------------------------
  // Ownership
  // ---------------------------------------------------------------------------------------------

  /** The thread has the connection in its hands. */
  predicate Holds(th: Thread, t: Task) {
    match th
    case C(Submitting(task)) => task == t
    case W(Took(task)) => task == t
    case W(Handling(task)) => task == t
    case W(Guarding(task)) => task == t
    case W(QueueGuarded(task)) => task == t
    case W(Crashed(task)) => task == t
    case G(Polling(task)) => task == t
    case G(Ready(task)) => task == t
    case _ => false
  }

  function CountHolders(ts: seq<Thread>, t: Task): nat {
    if ts == [] then 0 else CountHolders(ts[..|ts| - 1], t) + if Holds(ts[|ts| - 1], t) then 1 else 0
  }

  lemma HeldByOne(th: Thread, t: Task)
    ensures ThreadLoad(th, t).held == if Holds(th, t) then 1 else 0
  {
  }

  lemma {:induction false} HoldersSum(ts: seq<Thread>, t: Task)
    ensures Sum(ts, t).held == CountHolders(ts, t)
  {
    if ts != [] {
      HoldersSum(ts[..|ts| - 1], t);
      HeldByOne(ts[|ts| - 1], t);
    }
  }

  lemma {:induction false} HolderCounts(ts: seq<Thread>, i: nat, t: Task)
    requires i < |ts| && Holds(ts[i], t)
    ensures CountHolders(ts, t) >= 1
  {
    if i < |ts| - 1 {
      HolderCounts(ts[..|ts| - 1], i, t);
    }
  }

  lemma {:induction false} TwoHoldersCount(ts: seq<Thread>, i: nat, j: nat, t: Task)
    requires i < j < |ts| && Holds(ts[i], t) && Holds(ts[j], t)
    ensures CountHolders(ts, t) >= 2
  {
    if j < |ts| - 1 {
      TwoHoldersCount(ts[..|ts| - 1], i, j, t);
    } else {
      HolderCounts(ts[..|ts| - 1], i, t);
    }
  }

  /** In every interleaving a submitted connection is as often in a queue, in a thread's hands, closed or
      abandoned as it was submitted: once. */
  lemma Ownership(c: Config, actions: seq<Action>, t: Task)
    requires AllPossible(c, NewPool(c), actions)
    ensures
      var p := After(c, NewPool(c), actions);
      CountHolders(p.threads, t) + Elsewhere(p.shared, t) == Count(p.shared.submitted, t)
  {
    InvNew(c);
    InvAfter(c, NewPool(c), actions);
    var p := After(c, NewPool(c), actions);
    assert Accounted(c, p, t);
    HoldersSum(p.threads, t);
  }

  /** No two threads run the same connection, and none runs one that is queued, closed or abandoned. */
  lemma NoTwoOwners(c: Config, actions: seq<Action>, t: Task, i: nat)
    requires AllPossible(c, NewPool(c), actions)
    requires
      var p := After(c, NewPool(c), actions);
      Count(p.shared.submitted, t) == 1 && i < |p.threads| && Holds(p.threads[i], t)
    ensures
      var p := After(c, NewPool(c), actions);
      Elsewhere(p.shared, t) == 0 && forall j: nat :: j < |p.threads| && j != i ==> !Holds(p.threads[j], t)
  {
    var p := After(c, NewPool(c), actions);
    Ownership(c, actions, t);
    HolderCounts(p.threads, i, t);
    forall j: nat | j < |p.threads| && j != i
      ensures !Holds(p.threads[j], t)
    {
      if Holds(p.threads[j], t) {
        TwoHoldersCount(p.threads, if i < j then i else j, if i < j then j else i, t);
      }
    }
  }

  // ---------------------------------------------------------------------------------------------
  // Counters
  // ---------------------------------------------------------------------------------------------

  /** The thread is between counting a connection as guarded and queueing it, polls one, or has not yet
      counted a broken one off. */
  predicate UnderGuard(th: Thread) {
    (th.W? && th.worker.QueueGuarded?) || (th.G? && (th.guard.Polling? || th.guard.Broken?))
  }

  /** A worker that waits for work, or has taken a connection but not yet counted itself busy, or is
      about to be started. */
  predicate IdleNow(th: Thread) {
    || (th.W? && (th.worker.Waiting? || th.worker.ReadIdle? || th.worker.Took? || th.worker.RespawnStart?))
    || th == C(CallerGrows(StartWorker)) || th == G(GuardGrows(StartWorker))
  }

  /** A worker that has yet to count itself off, or has counted its replacement but not left. */
  predicate LeavingNow(th: Thread) {
    th.W? && (th.worker.Leaving? || th.worker.RespawnIdle? || th.worker.RespawnStart?)
  }

  /** How many threads are under guard, idle, and leaving. */
  datatype Tally = Tally(guarded: nat, idle: nat, leaving: nat)

  function TallyOf(ts: seq<Thread>): Tally {
    if ts == [] then Tally(0, 0, 0)
    else
      var rest, th := TallyOf(ts[..|ts| - 1]), ts[|ts| - 1];
      Tally(rest.guarded + (if UnderGuard(th) then 1 else 0), rest.idle + (if IdleNow(th) then 1 else 0),
            rest.leaving + (if LeavingNow(th) then 1 else 0))
  }

  lemma LoadOfOne(th: Thread)
    ensures
      var l := ThreadLoad(th, 0);
      && l.guarded == (if UnderGuard(th) then 1 else 0) && l.idle == (if IdleNow(th) then 1 else 0)
      && l.spare == (if LeavingNow(th) then 1 else 0)
  {
  }

  lemma {:induction false} TallySum(ts: seq<Thread>)
    ensures Sum(ts, 0).guarded == TallyOf(ts).guarded
    ensures Sum(ts, 0).idle == TallyOf(ts).idle && Sum(ts, 0).spare == TallyOf(ts).leaving
  {
    if ts != [] {
      TallySum(ts[..|ts| - 1]);
      LoadOfOne(ts[|ts| - 1]);
    }
  }

  /** What the counters count in every interleaving: `guardedCount` the connections in the guard queue or
      with a thread, and those a guard dropped; `idleWorkers` the idle workers and every worker that ever
      retired; `totalWorkers` the workers the pool started with and grew by, less the retired: a crashed
      worker's replacement leaves the number as it was. */
  lemma Counters(c: Config, p: Pool)
    requires Inv(c, p)
    ensures p.shared.guarded == |p.shared.guardQueue| + TallyOf(p.threads).guarded + |p.shared.abandoned|
    ensures p.shared.idle == TallyOf(p.threads).idle + p.shared.retired
    ensures p.shared.total == c.minWorkers + p.shared.grown - p.shared.retired + TallyOf(p.threads).leaving
  {
    assert Accounted(c, p, 0);
    TallySum(p.threads);
  }

  /** A thread that asks whether a worker is idle goes on to grow the pool if and only if none is and none
      has ever retired. */
  lemma GrowthGate(c: Config, p: Pool, now: int)
    requires Inv(c, p)
    ensures GrowStep(c, p.shared, CheckIdle, now).next == Some(ReadStart(now))
       <==> TallyOf(p.threads).idle == 0 && p.shared.retired == 0
  {
    Counters(c, p);
  }

  /** A thread that has passed the check for an idle worker. */
  predicate PastCheck(th: Thread) {
    || (th.C? && th.caller.CallerGrows? && Passed(th.caller.grow))
    || (th.G? && th.guard.GuardGrows? && Passed(th.guard.grow))
  }

  predicate Passed(g: Grow) {
    g.ReadStart? || g.Decide? || g.AddTotal?
  }

  /** No thread is about to grow the pool, and a worker has retired. */
  ghost predicate Stuck(p: Pool) {
    p.shared.retired >= 1 && forall i: nat :: i < |p.threads| ==> !PastCheck(p.threads[i])
  }

  lemma StuckMove(c: Config, sh: Shared, th: Thread, input: Input, now: int)
    requires sh.idle >= 1 && !PastCheck(th)
    ensures
      var m := ThreadStep(c, sh, th, input, now);
      && !PastCheck(m.next) && (m.born.Some? ==> !PastCheck(m.born.value))
      && m.shared.grown == sh.grown && m.shared.retired >= sh.retired
  {
  }

  lemma StuckNext(c: Config, p: Pool, a: Action)
    requires Inv(c, p) && Stuck(p) && Possible(p, a)
    ensures Stuck(Next(c, p, a)) && Next(c, p, a).shared.grown == p.shared.grown
  {
    if a.Moves? {
      Counters(c, p);
      StuckMove(c, p.shared, p.threads[a.i], a.input, a.now);
    }
  }

  /** Retired workers stay counted as idle, so after the first one, once no thread is in the middle of
      growing the pool, it never grows again. */
  lemma {:induction false} NeverGrowsAgain(c: Config, p: Pool, actions: seq<Action>)
    requires Inv(c, p) && Stuck(p) && AllPossible(c, p, actions)
    ensures After(c, p, actions).shared.grown == p.shared.grown
    decreases actions
  {
    if actions != [] {
      InvNext(c, p, actions[0]);
      StuckNext(c, p, actions[0]);
      NeverGrowsAgain(c, Next(c, p, actions[0]), actions[1..]);
    }
  }

  // ---------------------------------------------------------------------------------------------
  // A run that gets there
  // ---------------------------------------------------------------------------------------------

  ghost predicate Leads(c: Config, p: Pool, actions: seq<Action>, p': Pool) {
    AllPossible(c, p, actions) && After(c, p, actions) == p'
  }

  /** One more action in front of a run. */
  lemma Before(c: Config, p: Pool, a: Action, actions: seq<Action>, p': Pool) returns (all: seq<Action>)
    requires Possible(p, a) && Leads(c, Next(c, p, a), actions, p')
    ensures Leads(c, p, all, p')
  {
    all := [a] + actions;
    assert all[1..] == actions;
  }

  /** One to two workers; a quarter of them may be idle. */
  function Small(): Config { Config(1, 2, 25, 1, 0, 0, 0, 0) }

  /** The worker handles the first of two connections; a second caller is about to ask for more workers. */
  function Busy(): Pool {
    Pool(Shared([1], [], 1, 0, 0, 0, 1, [0, 1], [], [], 0, 0),
         [W(Handling(0)), C(Returned), C(CallerGrows(CheckIdle))])
  }

  /** The worker handles its first connection, and the caller that brought it looks for idle workers. */
  function FirstTaken(): Pool {
    Pool(Shared([], [], 1, 0, 0, 0, 0, [0], [], [], 0, 0), [W(Handling(0)), C(CallerGrows(CheckIdle))])
  }

  lemma ToFirstTaken(rest: seq<Action>, p: Pool) returns (actions: seq<Action>)
    requires Leads(Small(), FirstTaken(), rest, p)
    ensures Leads(Small(), NewPool(Small()), actions, p)
  {
    var c, worker, caller := Small(), Moves(0, Found, 1), Moves(1, Found, 1);
    var p0 := NewPool(c);
    assert p0.threads == [W(Waiting)];
    var p1 := Next(c, p0, Submit(0));
    var p2 := Next(c, p1, caller);
    assert p2.threads == [W(Waiting), C(CallerGrows(CheckIdle))] && p2.shared.queue == [0];
    var p3 := Next(c, p2, worker);
    assert p3.threads[0] == W(Took(0));
    assert Next(c, p3, worker).threads == FirstTaken().threads;
    assert Next(c, p3, worker) == FirstTaken();
    actions := Before(c, p3, worker, rest, p);
    actions := Before(c, p2, worker, actions, p);
    actions := Before(c, p1, caller, actions, p);
    actions := Before(c, p0, Submit(0), actions, p);
  }

  lemma ToBusy(rest: seq<Action>, p: Pool) returns (actions: seq<Action>)
    requires Leads(Small(), Busy(), rest, p)
    ensures Leads(Small(), NewPool(Small()), actions, p)
  {
    var c, caller := Small(), Moves(1, Found, 1);
    var p4 := FirstTaken();
    var p5 := Next(c, p4, caller);
    assert p5.threads == [W(Handling(0)), C(CallerGrows(ReadStart(1)))];
    var marked := Next(c, p5, caller);
    assert marked.threads == [W(Handling(0)), C(CallerGrows(MarkStart(1)))];
    var p6 := Next(c, marked, caller);
    assert p6.threads == [W(Handling(0)), C(Returned)] && p6.shared.backlogStart == 1;
    var p7 := Next(c, p6, Submit(1));
    assert Next(c, p7, Moves(2, Found, 1)).threads == Busy().threads;
    assert Next(c, p7, Moves(2, Found, 1)) == Busy();
    actions := Before(c, p7, Moves(2, Found, 1), rest, p);
    actions := Before(c, p6, Submit(1), actions, p);
    actions := Before(c, marked, caller, actions, p);
    actions := Before(c, p5, caller, actions, p);
    actions := Before(c, p4, caller, actions, p);
    actions := ToFirstTaken(actions, p);
  }

  /** The pool has grown: no worker was idle and none had retired. */
  function Grown(): Pool {
    Pool(Shared([1], [], 2, 1, 0, 0, 0, [0, 1], [], [], 1, 0),
         [W(Handling(0)), C(Returned), C(Returned), W(Waiting)])
  }

  lemma ToGrown(rest: seq<Action>, p: Pool) returns (actions: seq<Action>)
    requires Leads(Small(), Grown(), rest, p)
    ensures Leads(Small(), Busy(), actions, p)
  {
    var c, caller := Small(), Moves(2, Found, 2);
    var p1 := Next(c, Busy(), caller);
    assert p1.threads[2] == C(CallerGrows(ReadStart(2)));
    var p2 := Next(c, p1, caller);
    assert p2.threads[2] == C(CallerGrows(Decide(2, 1)));
    var p3 := Next(c, p2, caller);
    assert p3.threads[2] == C(CallerGrows(AddTotal));
    var p4 := Next(c, p3, caller);
    assert p4.threads[2] == C(CallerGrows(AddIdle));
    var p5 := Next(c, p4, caller);
    assert p5.threads[2] == C(CallerGrows(StartWorker));
    var p6 := Next(c, p5, caller);
    assert p6.threads == [W(Handling(0)), C(Returned), C(CallerGrows(ClearBacklog)), W(Waiting)];
    assert Next(c, p6, caller) == Grown();
    actions := Before(c, p6, caller, rest, p);
    actions := Before(c, p5, caller, actions, p);
    actions := Before(c, p4, caller, actions, p);
    actions := Before(c, p3, caller, actions, p);
    actions := Before(c, p2, caller, actions, p);
    actions := Before(c, p1, caller, actions, p);
    actions := Before(c, Busy(), caller, actions, p);
  }

  /** Both connections are done and both workers wait. */
  function Calm(): Pool {
    Pool(Shared([], [], 2, 2, 0, 0, 0, [0, 1], [0, 1], [], 1, 0),
         [W(Waiting), C(Returned), C(Returned), W(Waiting)])
  }

  lemma ToCalm(rest: seq<Action>, p: Pool) returns (actions: seq<Action>)
    requires Leads(Small(), Calm(), rest, p)
    ensures Leads(Small(), Grown(), actions, p)
  {
    var c, first, second := Small(), Moves(0, Finished, 2), Moves(3, Finished, 2);
    var p1 := Next(c, Grown(), first);
    assert p1.threads[0] == W(Freed);
    var p2 := Next(c, p1, first);
    assert p2.threads[0] == W(Waiting) && p2.shared.closed == [0];
    var p3 := Next(c, p2, second);
    assert p3.threads[3] == W(Took(1)) && p3.shared.queue == [];
    var p4 := Next(c, p3, second);
    assert p4.threads[3] == W(Handling(1));
    var p5 := Next(c, p4, second);
    assert p5.threads[3] == W(Freed) && p5.shared.closed == [0, 1];
    assert Next(c, p5, second) == Calm();
    actions := Before(c, p5, second, rest, p);
    actions := Before(c, p4, second, actions, p);
    actions := Before(c, p3, second, actions, p);
    actions := Before(c, p2, second, actions, p);
    actions := Before(c, p1, first, actions, p);
    actions := Before(c, Grown(), first, actions, p);
  }

  /** A small pool that has grown once, after which a worker retires: it never grows again, though one
      worker is left where two are allowed. */
  lemma ReachesStuck() returns (actions: seq<Action>)
    ensures AllPossible(Small(), NewPool(Small()), actions)
    ensures
      var p := After(Small(), NewPool(Small()), actions);
      Stuck(p) && p.shared.grown == 1 && p.shared.total == 1
  {
    var c := Small();
    var p1 := Next(c, Calm(), Moves(3, TimedOut, 3));
    assert p1.threads[3] == W(ReadIdle(2));
    var p2 := Next(c, p1, Moves(3, TimedOut, 3));
    assert p2.threads[3] == W(Leaving);
    var p3 := Next(c, p2, Moves(3, TimedOut, 3));
    assert p3.threads == [W(Waiting), C(Returned), C(Returned), W(Gone)];
    actions := [];
    actions := Before(c, p2, Moves(3, TimedOut, 3), actions, p3);
    actions := Before(c, p1, Moves(3, TimedOut, 3), actions, p3);
    actions := Before(c, Calm(), Moves(3, TimedOut, 3), actions, p3);
    actions := ToCalm(actions, p3);
    actions := ToGrown(actions, p3);
    actions := ToBusy(actions, p3);
  }

  // ---------------------------------------------------------------------------------------------
  // A connection nobody closes
  // ---------------------------------------------------------------------------------------------

  /** One worker and one guard. */
  function Guarded(): Config { Config(1, 1, 25, 1, 1, 1, 0, 0) }

  /** The worker has kept the connection alive and queued it for the guard. */
  function Watched(): Pool {
    Pool(Shared([], [0], 1, 0, 1, 1, 0, [0], [], [], 0, 0),
         [W(ReadThreads), G(GuardWaiting), C(CallerGrows(CheckIdle))])
  }

  /** The worker handles the connection; the caller looks for idle workers. */
  function Served(): Pool {
    Pool(Shared([], [], 1, 0, 1, 0, 0, [0], [], [], 0, 0),
         [W(Handling(0)), G(GuardWaiting), C(CallerGrows(CheckIdle))])
  }

  lemma ToServed(rest: seq<Action>, p: Pool) returns (actions: seq<Action>)
    requires Leads(Guarded(), Served(), rest, p)
    ensures Leads(Guarded(), NewPool(Guarded()), actions, p)
  {
    var c, worker, caller := Guarded(), Moves(0, KeptAlive, 1), Moves(2, Found, 1);
    var p0 := NewPool(c);
    assert p0.threads == [W(Waiting), G(GuardWaiting)];
    var p1 := Next(c, p0, Submit(0));
    var p2 := Next(c, p1, caller);
    assert p2.threads == [W(Waiting), G(GuardWaiting), C(CallerGrows(CheckIdle))] && p2.shared.queue == [0];
    var p3 := Next(c, p2, worker);
    assert p3.threads[0] == W(Took(0)) && p3.shared.queue == [];
    assert Next(c, p3, worker).threads == Served().threads;
    assert Next(c, p3, worker) == Served();
    actions := Before(c, p3, worker, rest, p);
    actions := Before(c, p2, worker, actions, p);
    actions := Before(c, p1, caller, actions, p);
    actions := Before(c, p0, Submit(0), actions, p);
  }

  lemma ToWatched(rest: seq<Action>, p: Pool) returns (actions: seq<Action>)
    requires Leads(Guarded(), Watched(), rest, p)
    ensures Leads(Guarded(), NewPool(Guarded()), actions, p)
  {
    var c, worker := Guarded(), Moves(0, KeptAlive, 1);
    var p4 := Served();
    var p5 := Next(c, p4, worker);
    assert p5.threads[0] == W(Guarding(0));
    var p6 := Next(c, p5, worker);
    assert p6.threads[0] == W(QueueGuarded(0));
    assert Next(c, p6, worker).threads == Watched().threads;
    assert Next(c, p6, worker) == Watched();
    actions := Before(c, p6, worker, rest, p);
    actions := Before(c, p5, worker, actions, p);
    actions := Before(c, p4, worker, actions, p);
    actions := ToServed(actions, p);
  }

  lemma {:induction false} NoHolders(ts: seq<Thread>, t: Task)
    requires forall i: nat :: i < |ts| ==> !Holds(ts[i], t)
    ensures CountHolders(ts, t) == 0
  {
    if ts != [] {
      NoHolders(ts[..|ts| - 1], t);
    }
  }

  /** An unchecked exception takes the guard away with the connection in its hands: nobody has it, nobody
      closed it, and it stays counted as guarded. */
  lemma GuardDrops() returns (actions: seq<Action>)
    ensures AllPossible(Guarded(), NewPool(Guarded()), actions)
    ensures
      var p := After(Guarded(), NewPool(Guarded()), actions);
      && p.shared.abandoned == [0] && p.shared.closed == [] && p.shared.guarded == 1 && p.shared.guardQueue == []
      && CountHolders(p.threads, 0) == 0 && p.shared.guardThreads == 0
  {
    var c := Guarded();
    var p1 := Next(c, Watched(), Moves(1, Found, 1));
    assert p1.threads[1] == G(Polling(0)) && p1.shared.guardQueue == [];
    var p2 := Next(c, p1, Moves(1, Threw, 1));
    assert p2.threads[1] == G(GuardLeaving) && p2.shared.abandoned == [0];
    var p3 := Next(c, p2, Moves(1, Threw, 1));
    assert p3.threads == [W(ReadThreads), G(GuardGone), C(CallerGrows(CheckIdle))];
    NoHolders(p3.threads, 0);
    actions := [];
    actions := Before(c, p2, Moves(1, Threw, 1), actions, p3);
    actions := Before(c, p1, Moves(1, Threw, 1), actions, p3);
    actions := Before(c, Watched(), Moves(1, Found, 1), actions, p3);
    actions := ToWatched(actions, p3);
  }
}
