/** The variables that the closures of one call share: each method runs up to the next call of user code. */
module AutoObject {
  import opened AsyncAuto

  class Auto {
    const tasks: Tasks
    var results: map<Key, Result>
    var remaining: int
    var listeners: seq<Listener>
    var live: bool
    var pending: nat
    var mode: Mode
    var failing: nat
    ghost var started: seq<Key>
    ghost var reports: seq<Report>
    ghost var broken: bool

    ghost function View(): State
      reads this
    {
      State(results, remaining, listeners, live, pending, mode, failing, started, reports, broken)
    }

    ghost predicate Valid()
      reads this
    {
      tasks.Valid() && Inv(tasks, View())
    }

    constructor (tasks: Tasks)
      requires tasks.Valid()
      ensures this.tasks == tasks && View() == Begin(tasks) && Valid()
    {
      this.tasks := tasks;
      results, remaining, listeners, live := map[], |tasks.keys|, [Completion], true;
      pending, mode, failing, started, reports, broken := 0, Idle, 0, [], [], false;
      new;
      BeginKeeps(tasks);
      if |tasks.keys| == 0 {
        live := false;
        reports := [Report(false, map[])];
      } else {
        SetUpFrom(0);
      }
    }

    /** Goes through the keys until one of their tasks is started. */
    method SetUpFrom(first: nat)
      requires tasks.Valid()
      modifies this
      ensures View() == SetUp(tasks, old(View()), first)
    {
      var i := first;
      while i < |tasks.keys|
        invariant SetUp(tasks, View(), i) == SetUp(tasks, old(View()), first)
      {
        var k := tasks.keys[i];
        if HAS_OWN in results {
          broken := true;
          break;
        }
        if HasAll(results, tasks.needs[k]) && k !in results {
          started := started + [k];
          mode := Setup(i + 1);
          return;
        }
        listeners := [Waiting(k)] + listeners;
        i := i + 1;
      }
      mode := Idle;
    }

    /** Removes the first occurrence of `listener`. */
    method RemoveListener(listener: Listener)
      modifies this`listeners
      ensures listeners == Without(old(listeners), listener)
    {
      var i := 0;
      while i < |listeners|
        invariant i <= |listeners| && listener !in listeners[..i]
      {
        if listeners[i] == listener {
          WithoutAt(listeners, listener, i);
          listeners := listeners[..i] + listeners[i + 1..];
          return;
        }
        i := i + 1;
      }
      WithoutNone(listeners, listener);
    }

    /** Calls the listeners of a snapshot until one of them calls user code. */
    method NotifyListeners(todo: seq<Listener>, first: nat)
      requires forall i :: first <= i < |todo| && todo[i].Waiting? ==> todo[i].key in tasks.needs
      modifies this
      ensures View() == NotifyFrom(tasks, old(View()), todo, first)
    {
      var i := first;
      while i < |todo|
        invariant first <= i
        invariant NotifyFrom(tasks, View(), todo, i) == NotifyFrom(tasks, old(View()), todo, first)
      {
        var listener := todo[i];
        i := i + 1;
        if listener.Completion? {
          if remaining == 0 && live {
            live := false;
            reports := reports + [Report(false, results)];
            mode := Notify(todo, i);
            return;
          }
        } else if HAS_OWN in results {
          broken := true;
          break;
        } else if HasAll(results, tasks.needs[listener.key]) && listener.key !in results {
          RemoveListener(listener);
          started := started + [listener.key];
          mode := Notify(todo, i);
          return;
        }
      }
      mode := Idle;
    }

    /** A task's callback. */
    method TaskCallback(k: Key, failed: bool, value: Result)
      requires Valid() && k in started
      modifies this
      ensures View() == Step(tasks, old(View()), if failed then Fail(k, value) else Succeed(k, value)) && Valid()
    {
      hide Founded, Placed, ModeInv, SetUp, NotifyFrom;
      StepKeeps(tasks, View(), if failed then Fail(k, value) else Succeed(k, value));
      if failed {
        if live {
          reports := reports + [Report(true, results[k := value])];
          failing := failing + 1;
        }
      } else {
        results := results[k := value];
        pending := pending + 1;
      }
    }

    /** A deferred call of `taskComplete` runs. */
    method TaskComplete()
      requires Valid() && mode.Idle? && failing == 0 && pending > 0
      modifies this
      ensures View() == Step(tasks, old(View()), Fire) && Valid()
    {
      StepKeeps(tasks, View(), Fire);
      pending := pending - 1;
      remaining := remaining - 1;
      NotifyListeners(listeners, 0);
    }

    /** The innermost call of user code returns. */
    method UserReturns()
      requires Valid()
      modifies this
      ensures View() == Step(tasks, old(View()), Return) && Valid()
    {
      hide SetUp, NotifyFrom, Founded, Placed;
      StepKeeps(tasks, View(), Return);
      if failing > 0 {
        failing := failing - 1;
        live := false;
      } else {
        match mode {
          case Idle =>
          case Setup(next) => SetUpFrom(next);
          case Notify(todo, next) => NotifyListeners(todo, next);
        }
      }
    }
  }

  lemma {:induction false} WithoutNone(ls: seq<Listener>, l: Listener)
    requires l !in ls
    ensures Without(ls, l) == ls
  {
  }

  lemma {:induction false} WithoutAt(ls: seq<Listener>, l: Listener, i: nat)
    requires i < |ls| && ls[i] == l && l !in ls[..i]
    ensures Without(ls, l) == ls[..i] + ls[i + 1..]
  {
    var init, last := ls[..|ls| - 1], ls[|ls| - 1];
    assert ls == init + [last];
    if i < |init| {
      assert init[..i] == ls[..i];
      WithoutAt(init, l, i);
      assert ls[i + 1..] == init[i + 1..] + [last];
    } else {
      assert init == ls[..i];
    }
  }
}
