/** The database log: a queue filled by any number of threads and drained by one worker, as an
    object and as a protocol of interleaved steps. */
module Persistency {
  import opened Entries

  /** A queued row: which adapter, which property, and the value read when it was pushed. */
  datatype Record = Record(clientId: nat, key: Key, value: Value)

  /** What the worker asks of the database. */
  datatype Statement = Begin | Insert(row: Record) | Commit

  /** The fields the lock protects, the database, and how often the worker was notified. */
  datatype Core = Core(
    queue: seq<Record>,
    stop: bool,
    running: bool,
    counter: int,
    notifications: nat,
    log: seq<Statement>)

  const INITIAL := Core([], true, false, 0, 0, [])

  /** The lock section of push. */
  function Pushed(c: Core, trigger: int, r: Record): Core {
    var c1 := c.(queue := c.queue + [r]);
    if c.counter + 1 > trigger then c1.(notifications := c.notifications + 1, counter := 0)
    else c1.(counter := c.counter + 1)
  }

  function Logged(c: Core, x: Statement): Core { c.(log := c.log + [x]) }

  ghost function Inserts(rs: seq<Record>): (xs: seq<Statement>)
    ensures |xs| == |rs|
  {
    seq(|rs|, i requires 0 <= i < |rs| => Insert(rs[i]))
  }

  /** A whole drain: one transaction holding the queue in order. */
  ghost function Drained(c: Core): Core {
    c.(queue := [], log := c.log + [Begin] + Inserts(c.queue) + [Commit])
  }

  // ---------------------------------------------------------------- the object

  class DBPersistencyPolicy {
    const trigger: int
    var recordsQueue: seq<Record>
    var running: bool
    var stop: bool
    var triggerCounter: int
    ghost var notifications: nat
    var database: seq<Statement>

    ghost function State(): Core
      reads this
    {
      Core(recordsQueue, stop, running, triggerCounter, notifications, database)
    }

    constructor (trigger: int)
      ensures this.trigger == trigger && State() == INITIAL
    {
      this.trigger := trigger;
      recordsQueue, running, stop, triggerCounter, notifications, database := [], false, true, 0, 0, [];
    }

    /** push, run without interruption: nothing while stopped. */
    method Push(clientId: nat, key: Key, value: Value) returns (notify: bool)
      modifies this
      ensures State() == old(if stop then State()
                             else Pushed(State(), trigger, Record(clientId, key, value)))
      ensures notify <==> notifications > old(notifications)
    {
      if stop {
        return false;
      }
      notify := Enqueue(Record(clientId, key, value));
    }

    method Enqueue(r: Record) returns (notify: bool)
      modifies this
      ensures State() == old(Pushed(State(), trigger, r))
      ensures notify <==> notifications > old(notifications)
    {
      notify := false;
      recordsQueue := recordsQueue + [r];
      triggerCounter := triggerCounter + 1;
      if triggerCounter > trigger {
        notify := true;
        notifications := notifications + 1;
        triggerCounter := 0;
      }
    }

    /** What the worker does after waking up, under the lock. */
    method Drain()
      modifies this
      ensures State() == old(Drained(State()))
    {
      ghost var all := recordsQueue;
      ghost var before := database;
      database := database + [Begin];
      while recordsQueue != []
        invariant |recordsQueue| <= |all| && recordsQueue == all[|all| - |recordsQueue|..]
        invariant State() == old(State()).(
                    queue := recordsQueue,
                    log := before + [Begin] + Inserts(all[..|all| - |recordsQueue|]))
        decreases |recordsQueue|
      {
        ghost var done := |all| - |recordsQueue|;
        var record := recordsQueue[0];
        recordsQueue := recordsQueue[1..];
        database := database + [Insert(record)];
        assert Inserts(all[..done + 1]) == Inserts(all[..done]) + [Insert(all[done])];
      }
      assert all[..|all|] == all;
      database := database + [Commit];
    }

    method RequestStop()
      modifies this`stop
      ensures State() == old(State()).(stop := true)
    {
      stop := true;
    }
  }

  // ---------------------------------------------------------------- the protocol

  /** Where the worker thread is. */
  datatype Worker =
    | Off
    | Starting
    | AtCheck
    | WantsLock
    | Sleeping(wakePending: bool)
    | Woken
    | Draining(hand: Option<Record>)
    | Ending

  /** A producer between calls, or past the stop check with its record built. */
  datatype Producer = Idle | Holding(r: Record)

  /** The thread that calls enable and disable. */
  datatype Controller = Free | WantsNotify | Joining

  datatype System = System(
    core: Core,
    worker: Worker,
    producers: seq<Producer>,
    controller: Controller,
    history: seq<Record>,
    sinceSleep: nat)

  datatype Step =
    | CheckStop(i: nat, r: Record)
    | PushLocked(i: nat)
    | WorkerStep
    | Wake
    | Enable
    | RequestStop
    | NotifyAll
    | Join

  predicate LockFree(s: System) { !s.worker.Draining? }

  function Notified(worker: Worker): Worker {
    if worker.Sleeping? then Sleeping(true) else worker
  }

  /** One move of the worker thread. */
  function WorkerMoves(s: System): System {
    match s.worker
    case Starting =>
      s.(worker := AtCheck, core := Logged(Logged(s.core.(running := true), Begin), Commit))
    case AtCheck => s.(worker := if s.core.stop then Ending else WantsLock)
    case WantsLock => s.(worker := Sleeping(false), sinceSleep := 0)
    case Sleeping(pending) => if pending then s.(worker := Woken) else s
    case Woken => s.(worker := Draining(None), core := Logged(s.core, Begin))
    case Draining(Some(r)) => s.(worker := Draining(None), core := Logged(s.core, Insert(r)))
    case Draining(None) =>
      if s.core.queue != [] then
        s.(worker := Draining(Some(s.core.queue[0])), core := s.core.(queue := s.core.queue[1..]))
      else s.(worker := AtCheck, core := Logged(s.core, Commit))
    case Ending => s.(worker := Off, core := s.core.(running := false))
    case Off => s
  }

  /** A step that is not enabled changes nothing. */
  function Next(s: System, trigger: int, st: Step): System {
    match st
    case CheckStop(i, r) =>
      if i < |s.producers| && s.producers[i].Idle? && !s.core.stop
      then s.(producers := s.producers[i := Holding(r)]) else s
    case PushLocked(i) =>
      if i < |s.producers| && s.producers[i].Holding? && LockFree(s) then
        var c := Pushed(s.core, trigger, s.producers[i].r);
        s.(core := c, producers := s.producers[i := Idle],
           history := s.history + [s.producers[i].r], sinceSleep := s.sinceSleep + 1,
           worker := if c.notifications > s.core.notifications then Notified(s.worker) else s.worker)
      else s
    case WorkerStep => WorkerMoves(s)
    case Wake => if s.worker.Sleeping? then s.(worker := Woken) else s
    case Enable =>
      if s.controller.Free? && !s.core.running && s.worker.Off?
      then s.(core := s.core.(stop := false), worker := Starting) else s
    case RequestStop =>
      if s.controller.Free? && s.core.running && LockFree(s)
      then s.(core := s.core.(stop := true), controller := WantsNotify) else s
    case NotifyAll =>
      if s.controller.WantsNotify? then s.(worker := Notified(s.worker), controller := Joining) else s
    case Join =>
      if s.controller.Joining? && s.worker.Off? then s.(controller := Free) else s
  }

  ghost function Fresh(producers: nat): System {
    System(INITIAL, Off, seq(producers, i => Idle), Free, [], 0)
  }

  ghost function Run(s: System, trigger: int, steps: seq<Step>): System {
    if steps == [] then s else Next(Run(s, trigger, steps[..|steps| - 1]), trigger, steps[|steps| - 1])
  }

  // ---------------------------------------------------------------- conservation

  ghost function Rows(log: seq<Statement>): seq<Record> {
    if log == [] then []
    else Rows(log[..|log| - 1]) + if log[|log| - 1].Insert? then [log[|log| - 1].row] else []
  }

  /** A transaction is open at the end of the log. */
  ghost predicate Open(log: seq<Statement>) {
    log != [] && !log[|log| - 1].Commit?
  }

  /** Every insert lies in one transaction, and transactions do not overlap. */
  ghost predicate Bracketed(log: seq<Statement>) {
    log == [] || (Bracketed(log[..|log| - 1])
                  && (log[|log| - 1].Begin? <==> !Open(log[..|log| - 1])))
  }

  /** The record the worker has taken off the queue and not inserted yet. */
  ghost function Hand(w: Worker): seq<Record> {
    if w.Draining? && w.hand.Some? then [w.hand.value] else []
  }

  ghost predicate Conserved(s: System) {
    && Rows(s.core.log) + Hand(s.worker) + s.core.queue == s.history
    && Bracketed(s.core.log)
    && (Open(s.core.log) <==> s.worker.Draining?)
  }

  lemma LogGrows(log: seq<Statement>, x: Statement)
    ensures Rows(log + [x]) == Rows(log) + if x.Insert? then [x.row] else []
    ensures Open(log + [x]) <==> !x.Commit?
    ensures Bracketed(log + [x]) <==> Bracketed(log) && (x.Begin? <==> !Open(log))
  {
    assert (log + [x])[..|log|] == log;
  }

  lemma DrainStepConserves(s: System)
    requires Conserved(s) && s.worker.Draining?
    ensures Conserved(WorkerMoves(s))
  {
    var log, queue := s.core.log, s.core.queue;
    match s.worker.hand
    case Some(r) =>
      LogGrows(log, Insert(r));
    case None =>
      if queue == [] {
        LogGrows(log, Commit);
      } else {
        assert Rows(log) + [] + queue == Rows(log) + [queue[0]] + queue[1..];
      }
  }

  /** The transaction with the general data, before any row is taken. */
  lemma EmptyTransaction(log: seq<Statement>)
    requires Bracketed(log) && !Open(log)
    ensures Rows(log + [Begin] + [Commit]) == Rows(log)
    ensures Bracketed(log + [Begin] + [Commit]) && !Open(log + [Begin] + [Commit])
  {
    LogGrows(log, Begin);
    LogGrows(log + [Begin], Commit);
  }

  lemma SetupConserves(s: System)
    requires Conserved(s) && s.worker.Starting?
    ensures Conserved(WorkerMoves(s))
  {
    EmptyTransaction(s.core.log);
  }

  lemma WakingConserves(s: System)
    requires Conserved(s) && s.worker.Woken?
    ensures Conserved(WorkerMoves(s))
  {
    LogGrows(s.core.log, Begin);
  }

  lemma WorkerConserves(s: System)
    requires Conserved(s)
    ensures Conserved(WorkerMoves(s))
  {
    if s.worker.Starting? {
      SetupConserves(s);
    } else if s.worker.Woken? {
      WakingConserves(s);
    } else if s.worker.Draining? {
      DrainStepConserves(s);
    }
  }

  lemma StepConserves(s: System, trigger: int, st: Step)
    requires Conserved(s)
    ensures Conserved(Next(s, trigger, st))
  {
    if st.WorkerStep? {
      WorkerConserves(s);
    }
  }

  /** Whatever the producers, wakeups, starts and stops: the rows inserted, then the record in the
      worker's hand, then the queue, are the accepted pushes in lock order; and every insert lies
      inside one begin/commit pair. */
  lemma {:induction false} Conservation(n: nat, trigger: int, steps: seq<Step>)
    ensures Conserved(Run(Fresh(n), trigger, steps))
  {
    if steps != [] {
      Conservation(n, trigger, steps[..|steps| - 1]);
      StepConserves(Run(Fresh(n), trigger, steps[..|steps| - 1]), trigger, steps[|steps| - 1]);
    }
  }

  /** At each commit of a drain the inserted rows are the whole push history. */
  lemma CommitsEverything(n: nat, trigger: int, steps: seq<Step>)
    ensures var s := Run(Fresh(n), trigger, steps);
            var t := Next(s, trigger, WorkerStep);
            s.worker.Draining? && t.worker.AtCheck? ==>
              t.core.log == s.core.log + [Commit] && Rows(t.core.log) == t.history
  {
    Conservation(n, trigger, steps);
    LogGrows(Run(Fresh(n), trigger, steps).core.log, Commit);
  }

  /** The drain loop of the object is the worker's own steps: two for each queued record and one
      to commit, with the lock held throughout. */
  lemma {:induction false} DrainIsWorkerSteps(s: System, rest: seq<Record>) returns (t: System)
    requires s.worker == Draining(None) && s.core.queue == rest
    ensures t == Steps(s, 2 * |rest| + 1)
    ensures t == s.(worker := AtCheck,
                    core := s.core.(queue := [], log := s.core.log + Inserts(rest) + [Commit]))
    decreases |rest|
  {
    if rest == [] {
      t := WorkerMoves(s);
      assert Inserts([]) == [];
      assert s.core.log + Inserts(rest) + [Commit] == s.core.log + [Commit];
      assert Steps(t, 0) == t;
    } else {
      var s1 := WorkerMoves(s);
      var s2 := WorkerMoves(s1);
      t := DrainIsWorkerSteps(s2, rest[1..]);
      assert Inserts(rest) == [Insert(rest[0])] + Inserts(rest[1..]);
      assert s.core.log + Inserts(rest) + [Commit]
          == s.core.log + [Insert(rest[0])] + Inserts(rest[1..]) + [Commit];
      assert Steps(s, 2 * |rest| + 1) == Steps(s1, 2 * |rest|) == Steps(s2, 2 * |rest| - 1);
    }
  }

  ghost function Steps(s: System, n: nat): System
    decreases n
  {
    if n == 0 then s else Steps(WorkerMoves(s), n - 1)
  }

  /** What the drain of the object leaves is what a woken worker leaves, moving on its own: a begin,
      two moves for each queued record, and a commit. */
  lemma WokenWorkerDrains(s: System)
    requires s.worker.Woken?
    ensures Steps(s, 2 * |s.core.queue| + 2) == s.(worker := AtCheck, core := Drained(s.core))
  {
    var s1 := WorkerMoves(s);
    var t := DrainIsWorkerSteps(s1, s.core.queue);
    assert Steps(s, 2 * |s.core.queue| + 2) == Steps(s1, 2 * |s.core.queue| + 1);
    assert s.core.log + [Begin] + Inserts(s.core.queue) + [Commit]
        == s1.core.log + Inserts(s.core.queue) + [Commit];
  }

  lemma {:induction false} InsertsAreRows(log: seq<Statement>, rs: seq<Record>)
    requires Bracketed(log) && Open(log)
    ensures Rows(log + Inserts(rs)) == Rows(log) + rs
    ensures Bracketed(log + Inserts(rs)) && Open(log + Inserts(rs))
  {
    if rs == [] {
      assert log + Inserts(rs) == log;
    } else {
      var front, last := rs[..|rs| - 1], rs[|rs| - 1];
      InsertsAreRows(log, front);
      assert log + Inserts(rs) == log + Inserts(front) + [Insert(last)];
      LogGrows(log + Inserts(front), Insert(last));
      assert rs == front + [last];
    }
  }

  /** A drain inserts exactly the queued rows, in order, in one closed transaction of their own. */
  lemma DrainInsertsQueue(c: Core)
    requires Bracketed(c.log) && !Open(c.log)
    ensures var d := Drained(c);
            && d.queue == [] && Rows(d.log) == Rows(c.log) + c.queue
            && Bracketed(d.log) && !Open(d.log) && d == c.(queue := [], log := d.log)
  {
    LogGrows(c.log, Begin);
    InsertsAreRows(c.log + [Begin], c.queue);
    LogGrows(c.log + [Begin] + Inserts(c.queue), Commit);
  }

  // ---------------------------------------------------------------- accepting pushes

  /** A push that finds the policy enabled is queued, and notifies, as the object's push says: once
      the producer gets the lock, whatever was decided about stopping since it looked. */
  lemma PushIsTwoSteps(s: System, trigger: int, i: nat, r: Record)
    requires i < |s.producers| && s.producers[i].Idle?
    ensures var s1 := Next(s, trigger, CheckStop(i, r));
            && s1 == (if s.core.stop then s else s.(producers := s.producers[i := Holding(r)]))
            && (!s.core.stop && LockFree(s) ==>
                  var s2 := Next(s1, trigger, PushLocked(i));
                  s2.core == Pushed(s.core, trigger, r) && s2.history == s.history + [r]
                  && s2.producers == s.producers)
  {
  }

  lemma StoppedStaysEmpty(s: System, trigger: int, st: Step)
    requires s == Fresh(|s.producers|) && st != Enable
    ensures Next(s, trigger, st) == s
  {
  }

  /** While the worker drains, it holds the lock: no other thread touches the queue, the flags, the
      counter or the database. */
  lemma DrainHoldsLock(s: System, trigger: int, st: Step)
    requires s.worker.Draining? && st != WorkerStep
    ensures Next(s, trigger, st).core == s.core && Next(s, trigger, st).worker == s.worker
  {
  }

  /** Before the policy is enabled for the first time nothing is accepted, notified or logged. */
  lemma {:induction false} NothingBeforeEnable(n: nat, trigger: int, steps: seq<Step>)
    requires Enable !in steps
    ensures Run(Fresh(n), trigger, steps) == Fresh(n)
  {
    if steps != [] {
      assert Enable !in steps[..|steps| - 1];
      assert steps[|steps| - 1] in steps;
      NothingBeforeEnable(n, trigger, steps[..|steps| - 1]);
      StoppedStaysEmpty(Fresh(n), trigger, steps[|steps| - 1]);
    }
  }

  /** The transaction with the general data comes first in every log. */
  ghost predicate SetUpFirst(s: System) {
    if s.core.log == [] then s.worker.Off? || s.worker.Starting?
    else [Begin, Commit] <= s.core.log
  }

  lemma {:induction false} SetUpComesFirst(n: nat, trigger: int, steps: seq<Step>)
    ensures SetUpFirst(Run(Fresh(n), trigger, steps))
  {
    if steps != [] {
      SetUpComesFirst(n, trigger, steps[..|steps| - 1]);
      var s := Run(Fresh(n), trigger, steps[..|steps| - 1]);
      SetUpStays(s, trigger, steps[|steps| - 1]);
    }
  }

  lemma SetUpStays(s: System, trigger: int, st: Step)
    requires SetUpFirst(s)
    ensures SetUpFirst(Next(s, trigger, st))
  {
  }

  // ---------------------------------------------------------------- the trigger

  ghost predicate TriggerAccounted(s: System, trigger: nat) {
    && |s.history| == s.core.notifications * (trigger + 1) + s.core.counter
    && 0 <= s.core.counter <= trigger
    && (s.worker.Sleeping? && !s.worker.wakePending ==> s.sinceSleep <= s.core.counter)
  }

  lemma OneMore(n: nat, k: nat)
    ensures (n + 1) * k == n * k + k
  {
  }

  lemma StepIsAccounted(s: System, trigger: nat, st: Step)
    requires TriggerAccounted(s, trigger)
    ensures TriggerAccounted(Next(s, trigger, st), trigger)
  {
    OneMore(s.core.notifications, trigger + 1);
  }

  /** In every reachable state the pushes are the notifications, trigger + 1 each, plus the counter;
      and while the worker sleeps with no wakeup under way, at most trigger records have been
      queued since it fell asleep. */
  lemma {:induction false} TriggerAccounting(n: nat, trigger: nat, steps: seq<Step>)
    ensures var s := Run(Fresh(n), trigger, steps);
            TriggerAccounted(s, trigger)
            && (s.worker.Sleeping? && !s.worker.wakePending ==> s.sinceSleep <= trigger)
  {
    if steps != [] {
      TriggerAccounting(n, trigger, steps[..|steps| - 1]);
      StepIsAccounted(Run(Fresh(n), trigger, steps[..|steps| - 1]), trigger, steps[|steps| - 1]);
    }
  }

  // ---------------------------------------------------------------- does stop() return

  /** Once a stop is requested the flag stays set until the worker is joined, and a running worker
      is past its setup. */
  ghost predicate StopHolds(s: System) {
    && (!s.controller.Free? ==> s.core.stop && !s.worker.Starting?)
    && (s.core.running ==> !s.worker.Off? && !s.worker.Starting?)
  }

  lemma {:induction false} StopAlwaysHolds(n: nat, trigger: int, steps: seq<Step>)
    ensures StopHolds(Run(Fresh(n), trigger, steps))
  {
    if steps != [] {
      StopAlwaysHolds(n, trigger, steps[..|steps| - 1]);
    }
  }

  lemma {:induction false} StepsAdd(s: System, m: nat, n: nat)
    ensures Steps(s, m + n) == Steps(Steps(s, m), n)
    decreases m
  {
    if m > 0 {
      StepsAdd(WorkerMoves(s), m - 1, n);
    }
  }

  /** From its look at the flag a stopped worker needs two moves to end. */
  lemma EndsFromCheck(s: System)
    requires s.worker.AtCheck? && s.core.stop
    ensures Steps(s, 2).worker.Off?
  {
    assert Steps(s, 2) == Steps(WorkerMoves(s), 1) == WorkerMoves(WorkerMoves(s));
  }

  /** A stopped worker that has been woken drains the queue and ends. */
  lemma EndsFromDrain(s: System) returns (m: nat)
    requires s.worker == Draining(None) && s.core.stop
    ensures Steps(s, m).worker.Off?
  {
    var t := DrainIsWorkerSteps(s, s.core.queue);
    EndsFromCheck(t);
    m := 2 * |s.core.queue| + 1 + 2;
    StepsAdd(s, 2 * |s.core.queue| + 1, 2);
  }

  lemma EndsOneLater(s: System, m: nat)
    requires Steps(WorkerMoves(s), m).worker.Off?
    ensures Steps(s, m + 1).worker.Off?
  {
  }

  /** A stopped worker that does not wait, or has been notified, ends by itself. */
  lemma EndsByItself(s: System) returns (m: nat)
    requires s.core.stop && !s.worker.Starting? && !s.worker.WantsLock? && s.worker != Sleeping(false)
    ensures Steps(s, m).worker.Off?
    decreases if s.worker.Sleeping? then 2 else if s.worker.Woken? then 1 else 0
  {
    match s.worker
    case Off => m := 0;
    case Ending => m := 1; assert Steps(s, 1) == WorkerMoves(s);
    case AtCheck => m := 2; EndsFromCheck(s);
    case Sleeping(_) => m := EndsByItself(WorkerMoves(s)); EndsOneLater(s, m); m := m + 1;
    case Woken => m := EndsFromDrain(WorkerMoves(s)); EndsOneLater(s, m); m := m + 1;
    case Draining(None) => m := EndsFromDrain(s);
    case Draining(Some(_)) => m := EndsFromDrain(WorkerMoves(s)); EndsOneLater(s, m); m := m + 1;
  }

  lemma {:induction false} SleepsOn(s: System, m: nat)
    requires s.worker == Sleeping(false)
    ensures Steps(s, m).worker == Sleeping(false)
    decreases m
  {
    if m > 0 {
      SleepsOn(s, m - 1);
    }
  }

  /** When the stop is announced, the worker left to itself ends, and stop() returns, exactly if it
      is not between its look at the flag and its wait. */
  lemma WorkerAloneEndsIff(n: nat, trigger: int, steps: seq<Step>)
    requires Run(Fresh(n), trigger, steps).controller.WantsNotify?
    ensures var s := Run(Fresh(n), trigger, steps);
            (exists m: nat :: Steps(Next(s, trigger, NotifyAll), m).worker.Off?) <==> !s.worker.WantsLock?
  {
    var s := Run(Fresh(n), trigger, steps);
    var t := Next(s, trigger, NotifyAll);
    StopAlwaysHolds(n, trigger, steps);
    if s.worker.WantsLock? {
      forall m: nat ensures !Steps(t, m).worker.Off? {
        if m > 0 {
          SleepsOn(WorkerMoves(t), m - 1);
        }
      }
    } else {
      var m := EndsByItself(t);
    }
  }

  // ---------------------------------------------------------------- with pushes under way

  /** How many producers are past the stop check with a row to queue. */
  ghost function Holders(ps: seq<Producer>): nat {
    if ps == [] then 0 else Holders(ps[..|ps| - 1]) + if ps[|ps| - 1].Holding? then 1 else 0
  }

  lemma {:induction false} OneHolderLess(ps: seq<Producer>, i: nat)
    requires i < |ps| && ps[i].Holding?
    ensures Holders(ps[i := Idle]) == Holders(ps) - 1
  {
    if i < |ps| - 1 {
      OneHolderLess(ps[..|ps| - 1], i);
      assert ps[i := Idle][..|ps| - 1] == ps[..|ps| - 1][i := Idle];
    } else {
      assert ps[i := Idle][..|ps| - 1] == ps[..|ps| - 1];
    }
  }

  lemma {:induction false} SomeHolder(ps: seq<Producer>) returns (i: nat)
    requires Holders(ps) > 0
    ensures i < |ps| && ps[i].Holding?
  {
    if ps[|ps| - 1].Holding? {
      i := |ps| - 1;
    } else {
      i := SomeHolder(ps[..|ps| - 1]);
    }
  }

  /** The stop has been announced, the worker waits or is about to, and the pushes under way cannot
      bring the counter past the trigger. */
  ghost predicate Stuck(s: System, trigger: int) {
    s.core.stop && (s.worker.WantsLock? || s.worker == Sleeping(false)) && s.controller.Joining?
    && s.core.counter + Holders(s.producers) <= trigger
  }

  lemma StepStaysStuck(s: System, trigger: int, st: Step)
    requires Stuck(s, trigger) && st != Wake
    ensures Stuck(Next(s, trigger, st), trigger)
  {
    if st.PushLocked? && st.i < |s.producers| && s.producers[st.i].Holding? {
      OneHolderLess(s.producers, st.i);
    }
  }

  lemma {:induction false} StuckForever(s: System, trigger: int, steps: seq<Step>)
    requires Stuck(s, trigger) && Wake !in steps
    ensures Stuck(Run(s, trigger, steps), trigger)
  {
    if steps != [] {
      assert Wake !in steps[..|steps| - 1];
      assert steps[|steps| - 1] in steps;
      StuckForever(s, trigger, steps[..|steps| - 1]);
      StepStaysStuck(Run(s, trigger, steps[..|steps| - 1]), trigger, steps[|steps| - 1]);
    }
  }

  lemma {:induction false} RunAdd(s: System, trigger: int, p: seq<Step>, q: seq<Step>)
    ensures Run(s, trigger, p + q) == Run(Run(s, trigger, p), trigger, q)
  {
    if q == [] {
      assert p + q == p;
    } else {
      assert (p + q)[..|p + q| - 1] == p + q[..|q| - 1];
      RunAdd(s, trigger, p, q[..|q| - 1]);
    }
  }

  lemma RunOne(s: System, trigger: int, st: Step)
    ensures Run(s, trigger, [st]) == Next(s, trigger, st)
  {
    assert [st][..0] == [] && Run(s, trigger, [st][..0]) == s;
  }

  /** The worker's own moves as a run. */
  lemma {:induction false} StepsAsRun(s: System, trigger: int, m: nat) returns (steps: seq<Step>)
    ensures Wake !in steps && Run(s, trigger, steps) == Steps(s, m)
    decreases m
  {
    if m == 0 {
      steps := [];
    } else {
      var rest := StepsAsRun(WorkerMoves(s), trigger, m - 1);
      steps := [WorkerStep] + rest;
      RunOne(s, trigger, WorkerStep);
      RunAdd(s, trigger, [WorkerStep], rest);
    }
  }

  /** Enough pushes under way notify a waiting worker. */
  lemma {:induction false} PushesNotify(s: System, trigger: int) returns (steps: seq<Step>)
    requires s.worker == Sleeping(false) && s.core.counter <= trigger < s.core.counter + Holders(s.producers)
    ensures Wake !in steps
    ensures var t := Run(s, trigger, steps);
            t.worker == Sleeping(true) && t.core.stop == s.core.stop && t.controller == s.controller
    decreases Holders(s.producers)
  {
    var i := SomeHolder(s.producers);
    OneHolderLess(s.producers, i);
    var t := Next(s, trigger, PushLocked(i));
    RunOne(s, trigger, PushLocked(i));
    if s.core.counter + 1 > trigger {
      steps := [PushLocked(i)];
    } else {
      var rest := PushesNotify(t, trigger);
      steps := [PushLocked(i)] + rest;
      RunAdd(s, trigger, [PushLocked(i)], rest);
    }
  }

  /** stop() returns in this run. */
  ghost predicate Returns(s: System, trigger: int, steps: seq<Step>) {
    Wake !in steps && Run(s, trigger, steps).controller.Free?
  }

  ghost predicate CanReturn(s: System, trigger: int) {
    exists steps :: Returns(s, trigger, steps)
  }

  lemma MovesKeepController(s: System, m: nat)
    ensures Steps(s, m).controller == s.controller
    decreases m
  {
    if m > 0 {
      MovesKeepController(WorkerMoves(s), m - 1);
    }
  }

  lemma ReturnsByItself(s: System, trigger: int) returns (steps: seq<Step>)
    requires OnItsWay(s)
    ensures Returns(s, trigger, steps)
  {
    var m := EndsByItself(s);
    MovesKeepController(s, m);
    var moves := StepsAsRun(s, trigger, m);
    steps := moves + [Join];
    RunAdd(s, trigger, moves, [Join]);
    RunOne(Run(s, trigger, moves), trigger, Join);
  }

  lemma ReturnsAfterPushes(s: System, trigger: int) returns (steps: seq<Step>)
    requires s.core.stop && s.worker.WantsLock? && s.controller.Joining?
    requires s.core.counter <= trigger < s.core.counter + Holders(s.producers)
    ensures Returns(s, trigger, steps)
  {
    var s1 := Next(s, trigger, WorkerStep);
    RunOne(s, trigger, WorkerStep);
    var pushes := PushesNotify(s1, trigger);
    var s2 := Run(s1, trigger, pushes);
    var rest := ReturnsByItself(s2, trigger);
    RunAdd(s1, trigger, pushes, rest);
    RunAdd(s, trigger, [WorkerStep], pushes + rest);
    steps := [WorkerStep] + (pushes + rest);
  }

  /** From the announcement of a stop on, and without spurious wakeups, stop() can return exactly
      if the worker is not between its look at the flag and its wait, or if the producers that
      are past their own look at the flag are enough to pass the trigger. */
  lemma StopReturnsIff(n: nat, trigger: nat, steps: seq<Step>)
    requires Run(Fresh(n), trigger, steps).controller.WantsNotify?
    ensures var s := Run(Fresh(n), trigger, steps);
            CanReturn(Next(s, trigger, NotifyAll), trigger)
            <==> !s.worker.WantsLock? || s.core.counter + Holders(s.producers) > trigger
  {
    var s := Run(Fresh(n), trigger, steps);
    var t := Next(s, trigger, NotifyAll);
    StopAlwaysHolds(n, trigger, steps);
    TriggerAccounting(n, trigger, steps);
    if !s.worker.WantsLock? {
      var rest := ReturnsByItself(t, trigger);
    } else if s.core.counter + Holders(s.producers) > trigger {
      var rest := ReturnsAfterPushes(t, trigger);
    } else {
      StuckCannotReturn(t, trigger);
    }
  }

  /** A stopped worker that ends by itself, with the thread in stop() waiting for it. */
  ghost predicate OnItsWay(s: System) {
    s.controller.Joining? && s.core.stop
    && !s.worker.Starting? && !s.worker.WantsLock? && s.worker != Sleeping(false)
  }

  lemma {:induction false} StaysOnItsWay(s: System, trigger: int, more: seq<Step>)
    requires OnItsWay(s) && Join !in more
    ensures OnItsWay(Run(s, trigger, more))
  {
    if more != [] {
      assert Join !in more[..|more| - 1];
      assert more[|more| - 1] in more;
      StaysOnItsWay(s, trigger, more[..|more| - 1]);
    }
  }

  /** If the worker was not in between, no schedule makes the stop hang later: after any further
      steps it can still return. */
  lemma ReturnStaysInReach(n: nat, trigger: int, steps: seq<Step>, more: seq<Step>)
    requires Run(Fresh(n), trigger, steps).controller.WantsNotify?
    requires !Run(Fresh(n), trigger, steps).worker.WantsLock? && Join !in more
    ensures var t := Run(Next(Run(Fresh(n), trigger, steps), trigger, NotifyAll), trigger, more);
            CanReturn(t, trigger)
  {
    StopAlwaysHolds(n, trigger, steps);
    var t := Next(Run(Fresh(n), trigger, steps), trigger, NotifyAll);
    StaysOnItsWay(t, trigger, more);
    var rest := ReturnsByItself(Run(t, trigger, more), trigger);
    assert Returns(Run(t, trigger, more), trigger, rest);
  }

  /** Pushes that notify before the worker waits are missed: they leave the stop stuck. */
  lemma {:induction false} PushesMissed(s: System, trigger: nat) returns (steps: seq<Step>)
    requires s.core.stop && s.worker.WantsLock? && s.controller.Joining? && s.core.counter <= trigger
    ensures Join !in steps && Stuck(Run(s, trigger, steps), trigger)
    decreases Holders(s.producers)
  {
    if Holders(s.producers) == 0 {
      steps := [];
    } else {
      var i := SomeHolder(s.producers);
      OneHolderLess(s.producers, i);
      var rest := PushesMissed(Next(s, trigger, PushLocked(i)), trigger);
      steps := [PushLocked(i)] + rest;
      RunOne(s, trigger, PushLocked(i));
      RunAdd(s, trigger, [PushLocked(i)], rest);
    }
  }

  lemma StuckCannotReturn(s: System, trigger: int)
    requires Stuck(s, trigger)
    ensures !CanReturn(s, trigger)
  {
    forall rest ensures !Returns(s, trigger, rest) {
      if Wake !in rest {
        StuckForever(s, trigger, rest);
      }
    }
  }

  /** Some schedule makes the stop hang. */
  ghost predicate CanHang(s: System, trigger: int) {
    exists more :: Join !in more && !CanReturn(Run(s, trigger, more), trigger)
  }

  /** From the announcement of a stop on, some schedule makes stop() wait for ever exactly if the
      worker is between its look at the flag and its wait. */
  lemma StopCanHangIff(n: nat, trigger: nat, steps: seq<Step>)
    requires Run(Fresh(n), trigger, steps).controller.WantsNotify?
    ensures var s := Run(Fresh(n), trigger, steps);
            CanHang(Next(s, trigger, NotifyAll), trigger) <==> s.worker.WantsLock?
  {
    var s := Run(Fresh(n), trigger, steps);
    var t := Next(s, trigger, NotifyAll);
    if s.worker.WantsLock? {
      StopAlwaysHolds(n, trigger, steps);
      TriggerAccounting(n, trigger, steps);
      var more := PushesMissed(t, trigger);
      StuckCannotReturn(Run(t, trigger, more), trigger);
    } else {
      forall more | Join !in more ensures CanReturn(Run(t, trigger, more), trigger) {
        ReturnStaysInReach(n, trigger, steps, more);
      }
    }
  }

  /** One spurious wakeup ends a hang. */
  lemma WakeEndsHang(s: System, trigger: int)
    requires Stuck(s, trigger) && s.worker.Sleeping?
    ensures CanReturn(Next(s, trigger, Wake), trigger)
  {
    var rest := ReturnsByItself(Next(s, trigger, Wake), trigger);
  }

  /** The hang is reachable: a stop that is announced when the worker has just seen no stop. */
  lemma StopCanHang(n: nat, trigger: nat, steps: seq<Step>)
    requires Wake !in steps
    ensures var s := Run(Fresh(n), trigger, [Enable, WorkerStep, WorkerStep, RequestStop, NotifyAll]);
            Stuck(Run(s, trigger, steps), trigger)
  {
    var s0 := Fresh(n);
    var first, second, third := [Enable, WorkerStep], [WorkerStep, Step.RequestStop], [NotifyAll];
    var s1, s2 := Next(s0, trigger, Enable), Next(Next(s0, trigger, Enable), trigger, WorkerStep);
    RunOne(s0, trigger, Enable);
    RunAdd(s0, trigger, [Enable], [WorkerStep]);
    RunOne(s1, trigger, WorkerStep);
    assert [Enable] + [WorkerStep] == first;
    var s3 := Next(s2, trigger, WorkerStep);
    RunOne(s2, trigger, WorkerStep);
    RunAdd(s2, trigger, [WorkerStep], [Step.RequestStop]);
    RunOne(s3, trigger, Step.RequestStop);
    assert [WorkerStep] + [Step.RequestStop] == second;
    RunAdd(s0, trigger, first, second);
    RunAdd(s0, trigger, first + second, third);
    RunOne(Run(s0, trigger, first + second), trigger, NotifyAll);
    assert first + second + third == [Enable, WorkerStep, WorkerStep, Step.RequestStop, NotifyAll];
    NobodyHolds(n);
    StuckForever(Run(s0, trigger, first + second + third), trigger, steps);
  }

  lemma {:induction false} NobodyHolds(n: nat)
    ensures Holders(seq(n, i => Idle)) == 0
  {
    if n > 0 {
      var ps: seq<Producer> := seq(n, i => Idle);
      assert ps[..n - 1] == seq(n - 1, i => Idle);
      NobodyHolds(n - 1);
    }
  }
}
