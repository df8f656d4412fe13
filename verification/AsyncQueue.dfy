/** The worker queue and the priority queue, as a machine whose environment decides what happens next. */
module AsyncQueue {
  import opened Splices

  datatype Task = Task(id: nat, prio: int)

  /** The calls of user code that are under way, innermost last, each with what the queue does when it returns:
      the `empty` hook before a worker starts, the worker, the item's callback, the `drain` hook after it, the `drain`
      hook after an empty push, and the `saturated` hook in the middle of an insertion. An unset hook is one that
      returns at once. */
  datatype Frame =
    | Starting(task: Task)
    | Working
    | Calling
    | Draining
    | Telling
    | Inserting(rest: nat, prio: int, front: bool)

  /** A call of the `drain` hook: whether an empty push asked for it, and which items were finished. */
  datatype Drained = Drained(asked: bool, finished: set<nat>)

  /** `pending` counts the deferred calls of `process`, and `asked` those of `drain` after empty pushes. From `pushed`
      on, the fields only record what happened. */
  datatype State = State(
    concurrency: nat, priority: bool,
    tasks: seq<Task>, workers: int, paused: bool, drain: bool,
    pending: nat, asked: nat, stack: seq<Frame>,
    pushed: nat, running: set<nat>, finished: set<nat>, killed: set<nat>, taken: seq<Task>, drains: seq<Drained>)

  function Init(concurrency: nat, priority: bool): State {
    State(concurrency, priority, [], 0, false, false, 0, 0, [], 0, {}, {}, {}, [], [])
  }

  // ---------------------------------------------------------------- operations

  /** One past the last task whose priority is at most `prio`. */
  function Upper(tasks: seq<Task>, prio: int): (r: nat)
    ensures r <= |tasks|
  {
    if tasks == [] then 0
    else if tasks[|tasks| - 1].prio <= prio then |tasks|
    else Upper(tasks[..|tasks| - 1], prio)
  }

  function Place(s: State, prio: int, front: bool): (r: nat)
    ensures r <= |s.tasks|
  {
    if s.priority then Upper(s.tasks, prio) else if front then 0 else |s.tasks|
  }

  function Enqueue(s: State, prio: int, front: bool): State {
    s.(tasks := InsertAt(s.tasks, Place(s, prio, front), Task(s.pushed, prio)), pushed := s.pushed + 1)
  }

  predicate SameSettings(s: State, s': State) { s'.concurrency == s.concurrency && s'.priority == s.priority }

  /** Inserts `n` tasks one by one; the `saturated` hook may interrupt. */
  function Insert(s: State, n: nat, prio: int, front: bool): (r: State)
    ensures SameSettings(s, r) && r.finished == s.finished && r.killed == s.killed
    decreases n
  {
    if n == 0 then s
    else
      var s' := Enqueue(s, prio, front);
      if |s'.tasks| == s.concurrency then s'.(stack := s'.stack + [Inserting(n - 1, prio, front)])
      else Insert(s'.(pending := s'.pending + 1), n - 1, prio, front)
  }

  function StartWorker(s: State, t: Task): State {
    s.(workers := s.workers + 1, running := s.running + {t.id}, stack := s.stack + [Working])
  }

  function Process(s: State): State {
    if !s.paused && s.workers < s.concurrency && s.tasks != [] then
      var t := s.tasks[0];
      var s' := s.(tasks := RemoveAt(s.tasks, 0), taken := s.taken + [t]);
      if s'.tasks == [] then s'.(stack := s'.stack + [Starting(t)]) else StartWorker(s', t)
    else s
  }

  function Next(s: State, id: nat): State {
    s.(workers := s.workers - 1, running := s.running - {id}, finished := s.finished + {id},
      stack := s.stack + [Calling])
  }

  function Drain(s: State, asked: bool): State {
    s.(stack := s.stack + [if asked then Telling else Draining], drains := s.drains + [Drained(asked, s.finished)])
  }

  function AfterCallback(s: State): State {
    if s.drain && |s.tasks| + s.workers == 0 then Drain(s, false) else Process(s)
  }

  function Tell(s: State): State { if s.drain then Drain(s, true) else s }

  function Ids(tasks: seq<Task>): set<nat> { set t | t in tasks :: t.id }

  function Kill(s: State): State { s.(drain := false, tasks := [], killed := s.killed + Ids(s.tasks)) }

  function Resume(s: State): State {
    if s.paused then s.(paused := false, pending := s.pending + s.concurrency) else s
  }

  /** What user code or the event loop does next. */
  datatype Action =
    | Push(n: nat, prio: int, front: bool)
    | KillAll
    | SetDrain(on: bool)
    | Pause
    | Unpause
    | Callback(id: nat)
    | Return
    | Fire
    | FireDrain

  function Leave(s: State, f: Frame): State {
    match f
    case Starting(t) => StartWorker(s, t)
    case Working => s
    case Calling => AfterCallback(s)
    case Draining => Process(s)
    case Telling => s
    case Inserting(rest, prio, front) => Insert(s.(pending := s.pending + 1), rest, prio, front)
  }

  /** A worker's callback that was called before throws, and deferred calls wait until all user code has returned. An
      empty push only defers a call of `drain`. */
  function Step(s: State, a: Action): (r: State)
    ensures SameSettings(s, r) && s.finished <= r.finished && s.killed <= r.killed
  {
    match a
    case Push(n, prio, front) => if n == 0 then s.(asked := s.asked + 1) else Insert(s, n, prio, front)
    case KillAll => Kill(s)
    case SetDrain(on) => s.(drain := on)
    case Pause => s.(paused := true)
    case Unpause => Resume(s)
    case Callback(id) => if id in s.running then Next(s, id) else s
    case Return => if s.stack == [] then s else Leave(s.(stack := s.stack[..|s.stack| - 1]), s.stack[|s.stack| - 1])
    case Fire => if s.stack == [] && s.pending > 0 then Process(s.(pending := s.pending - 1)) else s
    case FireDrain => if s.stack == [] && s.asked > 0 then Tell(s.(asked := s.asked - 1)) else s
  }

  function Run(s: State, actions: seq<Action>): State {
    if actions == [] then s else Step(Run(s, actions[..|actions| - 1]), actions[|actions| - 1])
  }

  // ---------------------------------------------------------------- the invariant

  function Starts(stack: seq<Frame>): nat {
    if stack == [] then 0 else Starts(stack[..|stack| - 1]) + if stack[|stack| - 1].Starting? then 1 else 0
  }

  /** The frames that end in a call of `process`. */
  function Opens(stack: seq<Frame>): nat {
    if stack == [] then 0
    else Opens(stack[..|stack| - 1]) + if stack[|stack| - 1].Calling? || stack[|stack| - 1].Draining? then 1 else 0
  }

  /** The frames that end in deferring a call of `process`. */
  function Owes(stack: seq<Frame>): nat {
    if stack == [] then 0 else Owes(stack[..|stack| - 1]) + if stack[|stack| - 1].Inserting? then 1 else 0
  }

  function Queued(tasks: seq<Task>, id: nat): nat {
    if tasks == [] then 0 else Queued(tasks[..|tasks| - 1], id) + if tasks[|tasks| - 1].id == id then 1 else 0
  }

  function StartingUp(stack: seq<Frame>, id: nat): nat {
    if stack == [] then 0
    else
      var f := stack[|stack| - 1];
      StartingUp(stack[..|stack| - 1], id) + if f.Starting? && f.task.id == id then 1 else 0
  }

  function One(b: bool): nat { if b then 1 else 0 }

  /** In how many places an item is. */
  function Places(s: State, id: nat): nat {
    Queued(s.tasks, id) + StartingUp(s.stack, id) + One(id in s.running) + One(id in s.finished) + One(id in s.killed)
  }

  /** Every pushed item, and no other, is in exactly one place. */
  ghost predicate Conserved(s: State) { forall id: nat :: Places(s, id) == One(id < s.pushed) }

  /** No more workers than allowed, counting those about to start and those about to be replaced. */
  ghost predicate Bounded(s: State) {
    s.workers == |s.running| && s.workers + Starts(s.stack) + Opens(s.stack) <= s.concurrency
  }

  /** Together with `more`, enough calls of `process` are to come to start all that can be started. */
  ghost predicate Awake(s: State, more: nat) {
    var calls := s.pending + Opens(s.stack) + Owes(s.stack) + more;
    s.paused || |s.tasks| <= calls || s.concurrency - s.workers - Starts(s.stack) <= calls
  }

  predicate Before(x: Task, y: Task) { x.prio < y.prio || (x.prio == y.prio && x.id < y.id) }

  /** By priority, and in the order of their insertion within one priority. */
  ghost predicate Sorted(tasks: seq<Task>) { forall i, j :: 0 <= i < j < |tasks| ==> Before(tasks[i], tasks[j]) }

  ghost predicate Ordered(s: State) {
    && (forall i :: 0 <= i < |s.tasks| ==> s.tasks[i].id < s.pushed)
    && (s.priority ==> Sorted(s.tasks))
  }

  ghost predicate Inv(s: State) { Conserved(s) && Bounded(s) && Awake(s, 0) && Ordered(s) }

  // ---------------------------------------------------------------- each step keeps it

  lemma {:induction false} Pushed(stack: seq<Frame>, f: Frame)
    ensures Starts(stack + [f]) == Starts(stack) + One(f.Starting?)
    ensures Opens(stack + [f]) == Opens(stack) + One(f.Calling? || f.Draining?)
    ensures Owes(stack + [f]) == Owes(stack) + One(f.Inserting?)
    ensures forall id: nat :: StartingUp(stack + [f], id) == StartingUp(stack, id) + One(f.Starting? && f.task.id == id)
  {
    assert (stack + [f])[..|stack|] == stack;
  }

  lemma {:induction false} QueuedInsert(tasks: seq<Task>, i: nat, t: Task, id: nat)
    requires i <= |tasks|
    ensures Queued(InsertAt(tasks, i, t), id) == Queued(tasks, id) + One(t.id == id)
  {
    var n := |tasks|;
    var r := InsertAt(tasks, i, t);
    if i == n {
      assert r[..n] == tasks;
    } else {
      QueuedInsert(tasks[..n - 1], i, t, id);
      assert r[..n] == InsertAt(tasks[..n - 1], i, t);
    }
  }

  lemma {:induction false} QueuedRemove(tasks: seq<Task>, id: nat)
    requires tasks != []
    ensures Queued(RemoveAt(tasks, 0), id) == Queued(tasks, id) - One(tasks[0].id == id)
  {
    assert InsertAt(RemoveAt(tasks, 0), 0, tasks[0]) == tasks;
    QueuedInsert(RemoveAt(tasks, 0), 0, tasks[0], id);
  }

  lemma {:induction false} QueuedIds(tasks: seq<Task>, id: nat)
    ensures Queued(tasks, id) > 0 <==> id in Ids(tasks)
  {
    if tasks != [] {
      QueuedIds(tasks[..|tasks| - 1], id);
      assert tasks == tasks[..|tasks| - 1] + [tasks[|tasks| - 1]];
      if id in Ids(tasks) {
        var t :| t in tasks && t.id == id;
        assert t in tasks[..|tasks| - 1] || t == tasks[|tasks| - 1];
      }
    }
  }

  /** On a sorted list, `Upper` is where the priorities get too large. */
  lemma {:induction false} UpperSplits(tasks: seq<Task>, prio: int)
    requires Sorted(tasks)
    ensures forall i :: 0 <= i < |tasks| ==> (tasks[i].prio <= prio <==> i < Upper(tasks, prio))
  {
    if tasks != [] {
      UpperSplits(tasks[..|tasks| - 1], prio);
    }
  }

  lemma {:induction false} EnqueueOrdered(s: State, prio: int, front: bool)
    requires Ordered(s)
    ensures Ordered(Enqueue(s, prio, front))
  {
    if s.priority {
      UpperSplits(s.tasks, prio);
    }
  }

  lemma {:induction false} EnqueueConserves(s: State, prio: int, front: bool)
    requires Conserved(s)
    ensures Conserved(Enqueue(s, prio, front))
  {
    hide Upper;
    var s' := Enqueue(s, prio, front);
    forall id: nat
      ensures Places(s', id) == One(id < s'.pushed)
    {
      assert Places(s, id) == One(id < s.pushed);
      QueuedInsert(s.tasks, Place(s, prio, front), Task(s.pushed, prio), id);
    }
  }

  lemma {:induction false} InsertKeeps(s: State, n: nat, prio: int, front: bool)
    requires Inv(s)
    ensures Inv(Insert(s, n, prio, front))
    decreases n
  {
    hide Conserved, Ordered, Place, Upper, StartingUp, Starts, Opens, Owes;
    if n > 0 {
      var s' := Enqueue(s, prio, front);
      EnqueueOrdered(s, prio, front);
      EnqueueConserves(s, prio, front);
      if |s'.tasks| == s.concurrency {
        var f := Inserting(n - 1, prio, front);
        Pushed(s'.stack, f);
        SamePlaces(s', s'.(stack := s'.stack + [f]));
      } else {
        var s'' := s'.(pending := s'.pending + 1);
        SamePlaces(s', s'');
        InsertKeeps(s'', n - 1, prio, front);
      }
    }
  }

  /** What else is queued and where items are does not depend on the rest of the state. */
  lemma {:induction false} SamePlaces(s: State, s': State)
    requires Conserved(s) && Ordered(s) && s'.priority == s.priority && s'.tasks == s.tasks && s'.pushed == s.pushed
    requires s'.running == s.running && s'.finished == s.finished && s'.killed == s.killed
    requires forall id: nat :: StartingUp(s'.stack, id) == StartingUp(s.stack, id)
    ensures Conserved(s') && Ordered(s')
  {
    forall id: nat
      ensures Places(s', id) == One(id < s'.pushed)
    {
      assert Places(s, id) == One(id < s.pushed);
    }
  }

  /** A task that is in no other place begins to run. */
  lemma {:induction false} StartConserves(s: State, t: Task)
    requires Ordered(s) && forall id: nat :: Places(s, id) + One(id == t.id) == One(id < s.pushed)
    ensures Conserved(StartWorker(s, t)) && Ordered(StartWorker(s, t))
  {
    hide Queued, StartingUp, Starts, Opens, Owes, Sorted;
    Pushed(s.stack, Working);
    var s' := StartWorker(s, t);
    forall id: nat
      ensures Places(s', id) == One(id < s'.pushed)
    {
      assert Places(s, id) + One(id == t.id) == One(id < s.pushed);
    }
  }

  lemma {:induction false} StartBounded(s: State, t: Task)
    requires s.workers == |s.running| && s.workers + Starts(s.stack) + Opens(s.stack) < s.concurrency
    requires forall id: nat :: Places(s, id) + One(id == t.id) == One(id < s.pushed)
    ensures Bounded(StartWorker(s, t))
  {
    hide Places, StartingUp, Starts, Opens, Owes;
    Pushed(s.stack, Working);
    NotRunning(s, t);
  }

  lemma {:induction false} NotRunning(s: State, t: Task)
    requires forall id: nat :: Places(s, id) + One(id == t.id) == One(id < s.pushed)
    ensures t.id !in s.running
  {
    hide Queued, StartingUp;
    assert Places(s, t.id) + One(true) == One(t.id < s.pushed);
  }

  /** The state with the first task taken off, which is then nowhere. */
  lemma {:induction false} TakeFirst(s: State)
    requires Conserved(s) && Ordered(s) && s.tasks != []
    ensures var s' := s.(tasks := RemoveAt(s.tasks, 0), taken := s.taken + [s.tasks[0]]);
      Ordered(s') && forall id: nat :: Places(s', id) + One(id == s.tasks[0].id) == One(id < s'.pushed)
  {
    var s' := s.(tasks := RemoveAt(s.tasks, 0), taken := s.taken + [s.tasks[0]]);
    forall id: nat
      ensures Places(s', id) + One(id == s.tasks[0].id) == One(id < s'.pushed)
    {
      assert Places(s, id) == One(id < s.pushed);
      QueuedRemove(s.tasks, id);
    }
  }

  lemma {:induction false} HoldConserves(s: State, t: Task)
    requires Ordered(s) && forall id: nat :: Places(s, id) + One(id == t.id) == One(id < s.pushed)
    ensures var s' := s.(stack := s.stack + [Starting(t)]); Conserved(s') && Ordered(s')
  {
    hide Queued, StartingUp, Starts, Opens, Owes, Sorted;
    Pushed(s.stack, Starting(t));
    var s' := s.(stack := s.stack + [Starting(t)]);
    forall id: nat
      ensures Places(s', id) == One(id < s'.pushed)
    {
      assert Places(s, id) + One(id == t.id) == One(id < s.pushed);
    }
  }

  lemma {:induction false} ProcessKeeps(s: State)
    requires Conserved(s) && Ordered(s) && Bounded(s) && Awake(s, 1)
    requires s.workers < s.concurrency ==> s.workers + Starts(s.stack) + Opens(s.stack) < s.concurrency
    ensures Inv(Process(s))
  {
    hide Conserved, Ordered, Places, SameSettings, StartingUp, Queued, Ids, Starts, Opens, Owes;
    if !s.paused && s.workers < s.concurrency && s.tasks != [] {
      var t := s.tasks[0];
      var s' := s.(tasks := RemoveAt(s.tasks, 0), taken := s.taken + [t]);
      TakeFirst(s);
      if s'.tasks == [] {
        HoldConserves(s', t);
        Pushed(s'.stack, Starting(t));
      } else {
        StartConserves(s', t);
        StartBounded(s', t);
        Pushed(s'.stack, Working);
      }
    }
  }

  lemma {:induction false} KillKeeps(s: State)
    requires Inv(s)
    ensures Inv(Kill(s))
  {
    hide StartingUp;
    var s' := Kill(s);
    forall id: nat
      ensures Places(s', id) == One(id < s'.pushed)
    {
      assert Places(s, id) == One(id < s.pushed);
      QueuedIds(s.tasks, id);
    }
  }

  lemma {:induction false} NextKeeps(s: State, id: nat)
    requires Inv(s) && id in s.running
    ensures Inv(Next(s, id))
  {
    hide Queued, StartingUp, Starts, Opens, Owes;
    Pushed(s.stack, Calling);
    var s' := Next(s, id);
    forall x: nat
      ensures Places(s', x) == One(x < s'.pushed)
    {
      assert Places(s, x) == One(x < s.pushed);
    }
  }

  lemma {:induction false} AfterCallbackKeeps(s: State)
    requires Conserved(s) && Ordered(s) && Bounded(s) && Awake(s, 1)
    requires s.workers + Starts(s.stack) + Opens(s.stack) < s.concurrency
    ensures Inv(AfterCallback(s))
  {
    hide Conserved, Ordered, Starts, Opens, Owes, StartingUp;
    Pushed(s.stack, Draining);
    SamePlaces(s, Drain(s, false));
    ProcessKeeps(s);
  }

  lemma {:induction false} TellKeeps(s: State)
    requires Inv(s) && s.asked > 0
    ensures Inv(Tell(s.(asked := s.asked - 1)))
  {
    hide Conserved, Ordered, Starts, Opens, Owes, StartingUp;
    Pushed(s.stack, Telling);
    SamePlaces(s, Tell(s.(asked := s.asked - 1)));
  }

  lemma {:induction false} LeaveKeeps(s: State)
    requires Inv(s) && s.stack != []
    ensures Inv(Leave(s.(stack := s.stack[..|s.stack| - 1]), s.stack[|s.stack| - 1]))
  {
    hide Conserved, Ordered, Queued, Starts, Opens, Owes, StartingUp, Process;
    var f, rest := s.stack[|s.stack| - 1], s.stack[..|s.stack| - 1];
    var s' := s.(stack := rest);
    assert rest + [f] == s.stack;
    Pushed(rest, f);
    Released(s);
    match f
    case Starting(t) =>
      StartConserves(s', t);
      StartBounded(s', t);
      Pushed(rest, Working);
    case Working =>
    case Calling => AfterCallbackKeeps(s');
    case Draining => ProcessKeeps(s');
    case Telling =>
    case Inserting(n, prio, front) =>
      SamePlaces(s', s'.(pending := s'.pending + 1));
      InsertKeeps(s'.(pending := s'.pending + 1), n, prio, front);
  }

  /** Popping a frame takes an item out of its place only if that item was about to start. */
  lemma {:induction false} Released(s: State)
    requires Conserved(s) && Ordered(s) && s.stack != []
    ensures var f := s.stack[|s.stack| - 1];
      var s' := s.(stack := s.stack[..|s.stack| - 1]);
      && Ordered(s')
      && (f.Starting? ==> forall id: nat :: Places(s', id) + One(id == f.task.id) == One(id < s'.pushed))
      && (!f.Starting? ==> Conserved(s'))
  {
    var f := s.stack[|s.stack| - 1];
    var s' := s.(stack := s.stack[..|s.stack| - 1]);
    forall id: nat
      ensures Places(s', id) + One(f.Starting? && id == f.task.id) == One(id < s'.pushed)
    {
      assert Places(s, id) == One(id < s.pushed);
    }
  }

  lemma {:induction false} StepKeeps(s: State, a: Action)
    requires Inv(s)
    ensures Inv(Step(s, a))
  {
    hide Conserved, Ordered, Insert, Kill, Next, Leave, Process;
    match a
    case Push(n, prio, front) =>
      SamePlaces(s, s.(asked := s.asked + 1));
      InsertKeeps(s, n, prio, front);
    case KillAll => KillKeeps(s);
    case SetDrain(on) => SamePlaces(s, s.(drain := on));
    case Pause => SamePlaces(s, s.(paused := true));
    case Unpause => SamePlaces(s, Resume(s));
    case Callback(id) =>
      if id in s.running {
        NextKeeps(s, id);
      }
    case Return =>
      if s.stack != [] {
        LeaveKeeps(s);
      }
    case Fire =>
      if s.stack == [] && s.pending > 0 {
        var s' := s.(pending := s.pending - 1);
        SamePlaces(s, s');
        ProcessKeeps(s');
      }
    case FireDrain =>
      if s.stack == [] && s.asked > 0 {
        TellKeeps(s);
      }
  }

  /** Whatever user code and the event loop do, and in whatever order. */
  lemma {:induction false} RunKeeps(concurrency: nat, priority: bool, actions: seq<Action>)
    ensures Inv(Run(Init(concurrency, priority), actions))
    ensures Run(Init(concurrency, priority), actions).concurrency == concurrency
    ensures Run(Init(concurrency, priority), actions).priority == priority
  {
    hide Step;
    var s := Init(concurrency, priority);
    if actions != [] {
      RunKeeps(concurrency, priority, actions[..|actions| - 1]);
      StepKeeps(Run(s, actions[..|actions| - 1]), actions[|actions| - 1]);
    }
  }

  // ---------------------------------------------------------------- what follows for every run

  lemma {:induction false} NeverTooManyWorkers(concurrency: nat, priority: bool, actions: seq<Action>)
    ensures var s := Run(Init(concurrency, priority), actions); 0 <= s.workers == |s.running| <= concurrency
  {
    RunKeeps(concurrency, priority, actions);
  }

  /** When nothing is left to call, a queue that is not paused holds nothing back: all its workers are busy, or it is
      empty. */
  lemma {:induction false} NoLostWakeup(concurrency: nat, priority: bool, actions: seq<Action>)
    ensures var s := Run(Init(concurrency, priority), actions);
      s.stack == [] && s.pending == 0 && !s.paused ==> s.tasks == [] || |s.running| == concurrency
  {
    RunKeeps(concurrency, priority, actions);
  }

  /** And once its workers are done as well, every item ever pushed is finished or was killed, and none is both. */
  lemma {:induction false} AllDone(concurrency: nat, priority: bool, actions: seq<Action>)
    requires concurrency >= 1
    ensures var s := Run(Init(concurrency, priority), actions);
      s.stack == [] && s.pending == 0 && !s.paused && s.running == {} ==>
        forall id: nat :: One(id in s.finished) + One(id in s.killed) == One(id < s.pushed)
  {
    hide Conserved, Places;
    RunKeeps(concurrency, priority, actions);
    NoLostWakeup(concurrency, priority, actions);
    var s := Run(Init(concurrency, priority), actions);
    if s.stack == [] && s.pending == 0 && !s.paused && s.running == {} {
      forall id: nat
        ensures One(id in s.finished) + One(id in s.killed) == One(id < s.pushed)
      {
        OnlyDone(s, id);
      }
    }
  }

  lemma {:induction false} OnlyDone(s: State, id: nat)
    requires Conserved(s) && s.tasks == [] && s.stack == [] && s.running == {}
    ensures One(id in s.finished) + One(id in s.killed) == One(id < s.pushed)
  {
    assert Places(s, id) == One(id < s.pushed);
  }

  /** A callback takes effect at most once: after it, and in all that follows, the item is neither queued nor run. */
  lemma {:induction false} FinishedForGood(s: State, id: nat, actions: seq<Action>)
    requires Inv(s) && id in s.finished
    ensures var s' := Run(s, actions);
      id in s'.finished && id !in s'.running && Queued(s'.tasks, id) == 0 && id !in s'.killed
        && Step(s', Callback(id)) == s'
    decreases |actions|
  {
    hide Queued, StartingUp;
    StaysFinished(s, id, actions);
    var s' := Run(s, actions);
    assert Places(s', id) == One(id < s'.pushed);
  }

  lemma {:induction false} StaysFinished(s: State, id: nat, actions: seq<Action>)
    requires Inv(s) && id in s.finished
    ensures Inv(Run(s, actions)) && id in Run(s, actions).finished
    decreases |actions|
  {
    hide Inv, Step;
    if actions != [] {
      var n := |actions| - 1;
      StaysFinished(s, id, actions[..n]);
      StepKeeps(Run(s, actions[..n]), actions[n]);
    }
  }

  // ---------------------------------------------------------------- first in, first out

  ghost predicate Rising(tasks: seq<Task>) { forall i, j :: 0 <= i < j < |tasks| ==> tasks[i].id < tasks[j].id }

  ghost predicate NothingToTheFront(stack: seq<Frame>) {
    forall i :: 0 <= i < |stack| && stack[i].Inserting? ==> !stack[i].front
  }

  /** The tasks in the order in which they were taken off, then those still queued, are in the order of their pushes. */
  ghost predicate Fifo(s: State) {
    && !s.priority && NothingToTheFront(s.stack) && Rising(s.taken + s.tasks)
    && forall i :: 0 <= i < |s.taken + s.tasks| ==> (s.taken + s.tasks)[i].id < s.pushed
  }

  lemma {:induction false} InsertFifo(s: State, n: nat, prio: int)
    requires Fifo(s)
    ensures Fifo(Insert(s, n, prio, false))
    decreases n
  {
    if n > 0 {
      var s' := Enqueue(s, prio, false);
      assert s'.taken + s'.tasks == s.taken + s.tasks + [Task(s.pushed, prio)];
      if |s'.tasks| != s.concurrency {
        InsertFifo(s'.(pending := s'.pending + 1), n - 1, prio);
      }
    }
  }

  lemma {:induction false} ProcessFifo(s: State)
    requires Fifo(s)
    ensures Fifo(Process(s))
  {
    if !s.paused && s.workers < s.concurrency && s.tasks != [] {
      assert s.taken + s.tasks == s.taken + [s.tasks[0]] + RemoveAt(s.tasks, 0);
    }
  }

  lemma {:induction false} StepFifo(s: State, a: Action)
    requires Fifo(s) && (a.Push? ==> !a.front)
    ensures Fifo(Step(s, a))
  {
    hide Insert, Process, Rising;
    match a
    case Push(n, prio, front) => InsertFifo(s, n, prio);
    case KillAll => KillFifo(s);
    case Return =>
      if s.stack != [] {
        var s' := s.(stack := s.stack[..|s.stack| - 1]);
        ProcessFifo(s');
        match s.stack[|s.stack| - 1]
        case Inserting(rest, prio, front) => InsertFifo(s'.(pending := s'.pending + 1), rest, prio);
        case _ =>
      }
    case Fire =>
      if s.stack == [] && s.pending > 0 {
        ProcessFifo(s.(pending := s.pending - 1));
      }
    case _ =>
  }

  lemma {:induction false} KillFifo(s: State)
    requires Fifo(s)
    ensures Fifo(Kill(s))
  {
    assert forall i :: 0 <= i < |s.taken| ==> s.taken[i] == (s.taken + s.tasks)[i];
  }

  /** Without `unshift`, a plain queue takes its items off in the order in which they were pushed. */
  lemma {:induction false} FirstInFirstOut(concurrency: nat, actions: seq<Action>)
    requires forall i :: 0 <= i < |actions| && actions[i].Push? ==> !actions[i].front
    ensures Fifo(Run(Init(concurrency, false), actions))
  {
    hide Step;
    if actions != [] {
      var n := |actions| - 1;
      FirstInFirstOut(concurrency, actions[..n]);
      StepFifo(Run(Init(concurrency, false), actions[..n]), actions[n]);
    }
  }

  /** In a priority queue the task that is taken off precedes all that stay. */
  lemma {:induction false} MostUrgentFirst(concurrency: nat, actions: seq<Action>)
    ensures var s := Run(Init(concurrency, true), actions);
      Sorted(s.tasks) && forall i :: 0 < i < |s.tasks| ==> Before(s.tasks[0], s.tasks[i])
  {
    RunKeeps(concurrency, true, actions);
  }
}
