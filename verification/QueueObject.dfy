/** The queue object: each method performs one step of the machine up to the next call of user code. */
module QueueObject {
  import opened Splices
  import opened AsyncQueue

  class Queue {
    const concurrency: nat
    const priority: bool
    var tasks: seq<Task>
    var workers: int
    var paused: bool
    var drain: bool
    var pending: nat
    var asked: nat
    var stack: seq<Frame>
    var pushed: nat
    /** The `called` flags of the callbacks that are handed to the workers. */
    var called: set<nat>
    ghost var running: set<nat>
    ghost var killed: set<nat>
    ghost var taken: seq<Task>
    ghost var drains: seq<Drained>

    ghost function View(): State
      reads this
    {
      State(concurrency, priority, tasks, workers, paused, drain, pending, asked, stack, pushed, running, called,
        killed, taken, drains)
    }

    constructor (concurrency: nat, priority: bool)
      ensures View() == Init(concurrency, priority) && Inv(View())
    {
      this.concurrency, this.priority := concurrency, priority;
      tasks, workers, paused, drain, pending, asked, stack, pushed := [], 0, false, false, 0, 0, [], 0;
      called, running, killed, taken, drains := {}, {}, {}, [], [];
      new;
      RunKeeps(concurrency, priority, []);
    }

    /** The last index whose priority is at most `prio`, or -1. */
    static method BinarySearch(sequence: seq<Task>, prio: int) returns (beg: int)
      requires Sorted(sequence)
      ensures -1 <= beg < |sequence| && beg + 1 == Upper(sequence, prio)
      ensures forall i :: 0 <= i < |sequence| ==> (i <= beg <==> sequence[i].prio <= prio)
    {
      beg := -1;
      var end := |sequence| - 1;
      while beg < end
        invariant -1 <= beg <= end < |sequence|
        invariant forall i :: 0 <= i <= beg ==> sequence[i].prio <= prio
        invariant forall i :: end < i < |sequence| ==> sequence[i].prio > prio
      {
        var mid := beg + (end - beg + 1) / 2;
        if prio - sequence[mid].prio >= 0 {
          beg := mid;
        } else {
          end := mid - 1;
        }
      }
      UpperSplits(sequence, prio);
      var u := Upper(sequence, prio);
      assert beg >= 0 ==> sequence[beg].prio <= prio;
      assert u > 0 ==> sequence[u - 1].prio <= prio;
    }

    method EnqueueItem(prio: int, front: bool)
      requires Ordered(View())
      modifies this
      ensures View() == Enqueue(old(View()), prio, front) && Ordered(View())
    {
      hide Upper;
      EnqueueOrdered(View(), prio, front);
      var item := Task(pushed, prio);
      pushed := pushed + 1;
      if priority {
        var at := BinarySearch(tasks, prio);
        tasks := InsertAt(tasks, at + 1, item);
      } else if front {
        tasks := InsertAt(tasks, 0, item);
      } else {
        tasks := InsertAt(tasks, |tasks|, item);
      }
    }

    /** Inserts `n` items until all are in or the `saturated` hook is due. */
    method InsertItems(n: nat, prio: int, front: bool)
      requires Ordered(View())
      modifies this
      ensures View() == Insert(old(View()), n, prio, front)
    {
      hide Enqueue;
      var rest := n;
      while rest > 0
        invariant Ordered(View()) && Insert(View(), rest, prio, front) == Insert(old(View()), n, prio, front)
      {
        rest := rest - 1;
        EnqueueItem(prio, front);
        if |tasks| == concurrency {
          stack := stack + [Inserting(rest, prio, front)];
          return;
        }
        pending := pending + 1;
      }
    }

    method PushItems(n: nat, prio: int, front: bool)
      requires Inv(View())
      modifies this
      ensures View() == Step(old(View()), Push(n, prio, front)) && Inv(View())
    {
      hide Conserved, Bounded, Awake, Ordered, Insert;
      StepKeeps(View(), Push(n, prio, front));
      if n == 0 {
        asked := asked + 1;
        return;
      }
      InsertItems(n, prio, front);
    }

    method ProcessOne()
      modifies this
      ensures View() == Process(old(View()))
    {
      if !paused && workers < concurrency && |tasks| > 0 {
        var task := tasks[0];
        tasks := RemoveAt(tasks, 0);
        taken := taken + [task];
        if |tasks| == 0 {
          stack := stack + [Starting(task)];
        } else {
          RunWorker(task);
        }
      }
    }

    method RunWorker(task: Task)
      modifies this
      ensures View() == StartWorker(old(View()), task)
    {
      workers := workers + 1;
      running := running + {task.id};
      stack := stack + [Working];
    }

    /** The callback of item `id`, wrapped so that it takes effect once. */
    method OnlyOnce(id: nat) returns (threw: bool)
      requires Inv(View()) && (id in running || id in called)
      modifies this
      ensures View() == Step(old(View()), Callback(id)) && Inv(View())
      ensures threw <==> id in old(called)
    {
      hide Bounded, Awake, Ordered, Places, Starts, Opens, Owes, StartingUp, Queued;
      StepKeeps(View(), Callback(id));
      FinishedNotRunning(View(), id);
      if id in called {
        return true;
      }
      called := called + {id};
      workers := workers - 1;
      running := running - {id};
      stack := stack + [Calling];
      return false;
    }

    /** The innermost call of user code returns. */
    method UserReturns()
      requires Inv(View())
      modifies this
      ensures View() == Step(old(View()), Return) && Inv(View())
    {
      hide Inv, Conserved, Bounded, Awake, Ordered, Insert, Process, Places;
      StepKeeps(View(), Return);
      if stack == [] {
        return;
      }
      PoppedOrdered(View());
      var frame := stack[|stack| - 1];
      stack := stack[..|stack| - 1];
      match frame {
        case Starting(task) =>
          RunWorker(task);
        case Working =>
        case Calling =>
          if drain && |tasks| + workers == 0 {
            CallDrain(false);
          } else {
            ProcessOne();
          }
        case Draining =>
          ProcessOne();
        case Telling =>
        case Inserting(rest, prio, front) =>
          pending := pending + 1;
          InsertItems(rest, prio, front);
      }
    }

    /** The `drain` hook is called. */
    method CallDrain(afterPush: bool)
      modifies this
      ensures View() == Drain(old(View()), afterPush)
    {
      stack := stack + [if afterPush then Telling else Draining];
      drains := drains + [Drained(afterPush, called)];
    }

    /** What an empty push has deferred runs. */
    method FireDeferredDrain()
      requires Inv(View()) && stack == [] && asked > 0
      modifies this
      ensures View() == Step(old(View()), FireDrain) && Inv(View())
    {
      StepKeeps(View(), FireDrain);
      asked := asked - 1;
      if drain {
        CallDrain(true);
      }
    }

    /** A deferred call of `process` runs. */
    method FireDeferred()
      requires Inv(View()) && stack == [] && pending > 0
      modifies this
      ensures View() == Step(old(View()), Fire) && Inv(View())
    {
      StepKeeps(View(), Fire);
      pending := pending - 1;
      ProcessOne();
    }

    method KillItems()
      requires Inv(View())
      modifies this
      ensures View() == Step(old(View()), KillAll) && Inv(View())
    {
      StepKeeps(View(), KillAll);
      killed := killed + Ids(tasks);
      drain := false;
      tasks := [];
    }

    method PauseQueue()
      requires Inv(View())
      modifies this
      ensures View() == Step(old(View()), Pause) && Inv(View())
    {
      StepKeeps(View(), Pause);
      if paused {
        return;
      }
      paused := true;
    }

    method ResumeQueue()
      requires Inv(View())
      modifies this
      ensures View() == Step(old(View()), Unpause) && Inv(View())
    {
      StepKeeps(View(), Unpause);
      if !paused {
        return;
      }
      paused := false;
      for w := 0 to concurrency
        invariant View() == old(View()).(paused := false, pending := old(pending) + w)
      {
        pending := pending + 1;
      }
    }
  }

  lemma {:induction false} PoppedOrdered(s: State)
    requires Inv(s) && s.stack != []
    ensures Ordered(s.(stack := s.stack[..|s.stack| - 1]))
    ensures Ordered(s.(stack := s.stack[..|s.stack| - 1], pending := s.pending + 1))
  {
  }

  lemma {:induction false} FinishedNotRunning(s: State, id: nat)
    requires Conserved(s)
    ensures !(id in s.finished && id in s.running)
  {
    assert Places(s, id) == One(id < s.pushed);
  }
}
