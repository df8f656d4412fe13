/** Running tasks once their requirements have results, as a machine whose environment decides what happens next. */
module AsyncAuto {

  /** Assigning to `__proto__` adds no key to an object. */
  type Key = k: string | k != "__proto__" witness ""
  type Result = int

  /** The results are asked by this method for their keys; a result of this name hides it. */
  const HAS_OWN: Key := "hasOwnProperty"

  /** Waits for one task's requirements, or for the end. */
  datatype Listener = Waiting(key: Key) | Completion

  /** What the library does when the user code that it called returns: nothing, go on with the key at `next`, or go on
      with the listener at `next`. */
  datatype Mode = Idle | Setup(next: nat) | Notify(todo: seq<Listener>, next: nat)

  datatype Report = Report(failed: bool, results: map<Key, Result>)

  /** `live` says whether the final callback is still the caller's, `pending` counts the deferred calls of
      `taskComplete`, and `failing` the calls of the final callback for an error that are under way. The last three
      fields record what happened; `broken` says that the library threw. */
  datatype State = State(
    results: map<Key, Result>, remaining: int, listeners: seq<Listener>, live: bool, pending: nat,
    mode: Mode, failing: nat,
    started: seq<Key>, reports: seq<Report>, broken: bool)

  /** The keys in order, and what each of them requires. */
  datatype Tasks = Tasks(keys: seq<Key>, needs: map<Key, seq<Key>>)
  {
    ghost predicate Valid() {
      && (forall i, j :: 0 <= i < j < |keys| ==> keys[i] != keys[j])
      && (forall k :: k in keys <==> k in needs)
    }
  }

  // ---------------------------------------------------------------- operations

  predicate HasAll(results: map<Key, Result>, needed: seq<Key>) { forall r :: r in needed ==> r in results }

  predicate Ready(t: Tasks, s: State, k: Key)
    requires k in t.needs
  {
    HasAll(s.results, t.needs[k]) && k !in s.results
  }

  /** The list without the first occurrence of `l`. */
  function Without(ls: seq<Listener>, l: Listener): seq<Listener> {
    if ls == [] then []
    else
      var init, last := ls[..|ls| - 1], ls[|ls| - 1];
      if l in init then Without(init, l) + [last] else if last == l then init else ls
  }

  function Begin(t: Tasks): State {
    var s := State(map[], |t.keys|, [Completion], true, 0, Idle, 0, [], [], false);
    if t.keys == [] then s.(live := false, reports := [Report(false, map[])]) else SetUp(t, s, 0)
  }

  /** Asking whether a task is ready throws. */
  predicate Hidden(s: State) { HAS_OWN in s.results }

  function Break(s: State): State { s.(mode := Idle, broken := true) }

  /** Starts the tasks that are ready, and has the others wait; a started task may do anything before it returns. */
  function SetUp(t: Tasks, s: State, i: nat): State
    decreases |t.keys| - i
  {
    if i >= |t.keys| || t.keys[i] !in t.needs then s.(mode := Idle)
    else if Hidden(s) then Break(s)
    else if Ready(t, s, t.keys[i]) then s.(started := s.started + [t.keys[i]], mode := Setup(i + 1))
    else SetUp(t, s.(listeners := [Waiting(t.keys[i])] + s.listeners), i + 1)
  }

  /** Calls the listeners from the `i`-th on. */
  function NotifyFrom(t: Tasks, s: State, todo: seq<Listener>, i: nat): State
    decreases |todo| - i
  {
    if i >= |todo| then s.(mode := Idle)
    else match todo[i]
      case Completion =>
        if s.remaining == 0 && s.live
        then s.(live := false, reports := s.reports + [Report(false, s.results)], mode := Notify(todo, i + 1))
        else NotifyFrom(t, s, todo, i + 1)
      case Waiting(k) =>
        if Hidden(s) then Break(s)
        else if k in t.needs && Ready(t, s, k)
        then s.(listeners := Without(s.listeners, todo[i]), started := s.started + [k], mode := Notify(todo, i + 1))
        else NotifyFrom(t, s, todo, i + 1)
  }

  datatype Action =
    | Succeed(key: Key, value: Result)
    | Fail(key: Key, value: Result)
    | Return
    | Fire

  function Leave(t: Tasks, s: State): State {
    if s.failing > 0 then s.(failing := s.failing - 1, live := false)
    else match s.mode
      case Idle => s
      case Setup(i) => SetUp(t, s, i)
      case Notify(todo, i) => NotifyFrom(t, s, todo, i)
  }

  /** Only a task that was started has a callback to call; deferred calls wait until all user code has returned. */
  function Step(t: Tasks, s: State, a: Action): State {
    match a
    case Succeed(k, v) => if k in s.started then s.(results := s.results[k := v], pending := s.pending + 1) else s
    case Fail(k, v) =>
      if k in s.started && s.live
      then s.(reports := s.reports + [Report(true, s.results[k := v])], failing := s.failing + 1)
      else s
    case Return => Leave(t, s)
    case Fire =>
      if s.mode.Idle? && s.failing == 0 && s.pending > 0
      then NotifyFrom(t, s.(pending := s.pending - 1, remaining := s.remaining - 1), s.listeners, 0)
      else s
  }

  function Run(t: Tasks, actions: seq<Action>): State {
    if actions == [] then Begin(t) else Step(t, Run(t, actions[..|actions| - 1]), actions[|actions| - 1])
  }

  // ---------------------------------------------------------------- starting: at most once, and not too early

  /** The task has been started, waits, or is still to be set up, unless the library threw. */
  ghost predicate Placed(t: Tasks, s: State, k: Key) {
    s.broken || k in s.started || Waiting(k) in s.listeners
      || (s.mode.Setup? && exists i :: s.mode.next <= i < |t.keys| && t.keys[i] == k)
  }

  ghost predicate Distinct<T(!new)>(xs: seq<T>) { forall i, j :: 0 <= i < j < |xs| ==> xs[i] != xs[j] }

  /** Every started task was ready: what it requires has results, from tasks that were started before it. */
  ghost predicate Founded(t: Tasks, order: seq<Key>) {
    && Distinct(order)
    && (forall i :: 0 <= i < |order| ==> order[i] in t.needs)
    && (forall i, r :: 0 <= i < |order| && r in t.needs[order[i]] ==> r in order[..i])
  }

  ghost predicate Inv(t: Tasks, s: State) {
    && Founded(t, s.started)
    && (forall k :: k in s.results ==> k in s.started)
    && Distinct(s.listeners) && Completion in s.listeners
    && (forall k :: k in s.started ==> Waiting(k) !in s.listeners)
    && (forall k :: Waiting(k) in s.listeners ==> k in t.needs)
    && (forall k :: k in t.keys ==> Placed(t, s, k))
    && (s.broken ==> Hidden(s) && exists k :: k in t.keys && k !in s.started)
    && ModeInv(t, s)
  }

  ghost predicate ModeInv(t: Tasks, s: State) {
    match s.mode
    case Idle => true
    case Setup(next) =>
      next <= |t.keys| && forall j :: next <= j < |t.keys| ==>
        t.keys[j] !in s.started && Waiting(t.keys[j]) !in s.listeners
    case Notify(todo, next) =>
      && next <= |todo|
      && forall j :: next <= j < |todo| ==> todo[j] in s.listeners && forall i :: 0 <= i < j ==> todo[i] != todo[j]
  }

  lemma {:induction false} WithoutMembers(ls: seq<Listener>, l: Listener)
    requires Distinct(ls)
    ensures Distinct(Without(ls, l))
    ensures forall x :: x in Without(ls, l) <==> x in ls && x != l
  {
    if ls != [] {
      var init, last := ls[..|ls| - 1], ls[|ls| - 1];
      WithoutMembers(init, l);
      assert ls == init + [last];
      assert last !in init;
      if l in init {
        WithoutSnoc(init, l, last);
      } else if last != l {
        assert Without(ls, l) == ls;
      }
    }
  }

  lemma {:induction false} WithoutSnoc(init: seq<Listener>, l: Listener, last: Listener)
    requires Distinct(Without(init, l)) && last !in Without(init, l)
    ensures Distinct(Without(init, l) + [last])
    ensures forall x :: x in Without(init, l) + [last] <==> x in Without(init, l) || x == last
  {
  }

  lemma {:induction false} StartFounded(t: Tasks, s: State, k: Key)
    requires Inv(t, s) && k in t.needs && Ready(t, s, k) && k !in s.started
    ensures Founded(t, s.started + [k])
  {
    var order := s.started + [k];
    forall i, r | 0 <= i < |order| && r in t.needs[order[i]]
      ensures r in order[..i]
    {
      if i < |s.started| {
        assert order[..i] == s.started[..i];
      } else {
        assert order[..i] == s.started;
      }
    }
  }

  lemma {:induction false} SetUpKeeps(t: Tasks, s: State, i: nat)
    requires t.Valid() && Inv(t, s.(mode := Setup(i)))
    ensures Inv(t, SetUp(t, s, i))
    decreases |t.keys| - i
  {
    hide Founded, Inv, Ready, Break, Hidden;
    if i >= |t.keys| {
      AllSetUp(t, s, i);
    } else {
      var k := t.keys[i];
      if Hidden(s) {
        NotYetStarted(t, s, i);
        BreakKeeps(t, s, Setup(i), k);
      } else if Ready(t, s, k) {
        StartFirstKeeps(t, s, i);
      } else {
        WaitKeeps(t, s, i);
        SetUpKeeps(t, s.(listeners := [Waiting(k)] + s.listeners), i + 1);
      }
    }
  }

  lemma {:induction false} BreakKeeps(t: Tasks, s: State, mode: Mode, k: Key)
    requires Inv(t, s.(mode := mode)) && Hidden(s) && k in t.keys && k !in s.started
    ensures Inv(t, Break(s))
  {
    hide Founded;
  }

  lemma {:induction false} AllSetUp(t: Tasks, s: State, i: nat)
    requires Inv(t, s.(mode := Setup(i))) && i >= |t.keys|
    ensures Inv(t, s.(mode := Idle))
  {
    hide Founded;
    forall k | k in t.keys
      ensures Placed(t, s.(mode := Idle), k)
    {
      assert Placed(t, s.(mode := Setup(i)), k);
    }
  }

  lemma {:induction false} StartFirstKeeps(t: Tasks, s: State, i: nat)
    requires t.Valid() && Inv(t, s.(mode := Setup(i))) && i < |t.keys| && Ready(t, s, t.keys[i]) && !Hidden(s)
    ensures Inv(t, s.(started := s.started + [t.keys[i]], mode := Setup(i + 1)))
  {
    hide Founded;
    var s' := s.(started := s.started + [t.keys[i]], mode := Setup(i + 1));
    StartFounded(t, s.(mode := Setup(i)), t.keys[i]);
    forall k | k in t.keys
      ensures Placed(t, s', k)
    {
      assert Placed(t, s.(mode := Setup(i)), k);
    }
  }

  lemma {:induction false} WaitKeeps(t: Tasks, s: State, i: nat)
    requires t.Valid() && Inv(t, s.(mode := Setup(i))) && i < |t.keys|
    ensures Inv(t, s.(listeners := [Waiting(t.keys[i])] + s.listeners, mode := Setup(i + 1)))
  {
    hide Founded;
    var l := Waiting(t.keys[i]);
    var ls := [l] + s.listeners;
    assert forall x :: x in ls <==> x == l || x in s.listeners;
    var s' := s.(listeners := ls, mode := Setup(i + 1));
    forall k | k in t.keys
      ensures Placed(t, s', k)
    {
      assert Placed(t, s.(mode := Setup(i)), k);
    }
  }

  lemma {:induction false} NotifyKeeps(t: Tasks, s: State, todo: seq<Listener>, i: nat)
    requires t.Valid() && Inv(t, s.(mode := Notify(todo, i)))
    ensures Inv(t, NotifyFrom(t, s, todo, i))
    decreases |todo| - i
  {
    hide Founded;
    if i < |todo| {
      match todo[i]
      case Completion =>
        SkipKeeps(t, s, todo, i);
        if !(s.remaining == 0 && s.live) {
          NotifyKeeps(t, s, todo, i + 1);
        }
      case Waiting(k) =>
        ListenerFacts(t, s, todo, i);
        if Hidden(s) {
          BreakKeeps(t, s, Notify(todo, i), k);
        } else if Ready(t, s, k) {
          StartKeeps(t, s, todo, i, k);
        } else {
          SkipKeeps(t, s, todo, i);
          NotifyKeeps(t, s, todo, i + 1);
        }
    }
  }

  lemma {:induction false} SkipKeeps(t: Tasks, s: State, todo: seq<Listener>, i: nat)
    requires Inv(t, s.(mode := Notify(todo, i))) && i < |todo|
    ensures Inv(t, s.(mode := Notify(todo, i + 1)))
  {
    forall k | k in t.keys
      ensures Placed(t, s.(mode := Notify(todo, i + 1)), k)
    {
      assert Placed(t, s.(mode := Notify(todo, i)), k);
    }
  }

  lemma {:induction false} StartKeeps(t: Tasks, s: State, todo: seq<Listener>, i: nat, k: Key)
    requires t.Valid() && Inv(t, s.(mode := Notify(todo, i))) && i < |todo| && todo[i] == Waiting(k)
    requires k in t.needs && Ready(t, s, k) && !Hidden(s)
    ensures Inv(t, s.(listeners := Without(s.listeners, todo[i]), started := s.started + [k],
      mode := Notify(todo, i + 1)))
  {
    hide Founded, Without;
    WithoutMembers(s.listeners, todo[i]);
    StartFounded(t, s.(mode := Notify(todo, i)), k);
    var s' := s.(listeners := Without(s.listeners, todo[i]), started := s.started + [k], mode := Notify(todo, i + 1));
    forall x | x in t.keys
      ensures Placed(t, s', x)
    {
      assert Placed(t, s.(mode := Notify(todo, i)), x);
    }
  }

  lemma {:induction false} BeginKeeps(t: Tasks)
    requires t.Valid()
    ensures Inv(t, Begin(t))
  {
    var s := State(map[], |t.keys|, [Completion], true, 0, Idle, 0, [], [], false);
    if t.keys != [] {
      SetUpKeeps(t, s, 0);
    }
  }

  lemma {:induction false} StepKeeps(t: Tasks, s: State, a: Action)
    requires t.Valid() && Inv(t, s)
    ensures Inv(t, Step(t, s, a))
  {
    hide Founded, SetUp, NotifyFrom;
    match a
    case Succeed(k, v) => SamePlaces(t, s, Step(t, s, a));
    case Fail(k, v) => SamePlaces(t, s, Step(t, s, a));
    case Return =>
      if s.failing > 0 {
        SamePlaces(t, s, Step(t, s, a));
      } else if s.mode.Setup? {
        SetUpKeeps(t, s, s.mode.next);
      } else if s.mode.Notify? {
        NotifyKeeps(t, s, s.mode.todo, s.mode.next);
      }
    case Fire =>
      if s.mode.Idle? && s.failing == 0 && s.pending > 0 {
        var s' := s.(pending := s.pending - 1, remaining := s.remaining - 1);
        SamePlaces(t, s, s'.(mode := Notify(s.listeners, 0)));
        NotifyKeeps(t, s', s.listeners, 0);
      }
  }

  lemma {:induction false} SamePlaces(t: Tasks, s: State, s': State)
    requires Inv(t, s) && s'.started == s.started && s'.listeners == s.listeners
    requires s'.mode == s.mode || (s.mode.Idle? && s'.mode == Notify(s.listeners, 0))
    requires (forall k :: k in s'.results ==> k in s.started) && s'.broken == s.broken && (Hidden(s) ==> Hidden(s'))
    ensures Inv(t, s')
  {
    hide Founded;
    forall k | k in t.keys
      ensures Placed(t, s', k)
    {
      assert Placed(t, s, k);
    }
  }

  lemma {:induction false} RunKeeps(t: Tasks, actions: seq<Action>)
    requires t.Valid()
    ensures Inv(t, Run(t, actions))
  {
    hide Inv, Step, Begin;
    if actions == [] {
      BeginKeeps(t);
    } else {
      RunKeeps(t, actions[..|actions| - 1]);
      StepKeeps(t, Run(t, actions[..|actions| - 1]), actions[|actions| - 1]);
    }
  }

  /** In every run a task starts at most once, and only when all it requires has results. */
  lemma {:induction false} StartsOnceWhenReady(t: Tasks, actions: seq<Action>)
    requires t.Valid()
    ensures var s := Run(t, actions);
      && Founded(t, s.started)
      && (forall k, r :: k in s.started && r in t.needs[k] ==> r in s.started)
      && (forall k :: k in s.results ==> k in s.started)
  {
    RunKeeps(t, actions);
    var s := Run(t, actions);
    forall k, r | k in s.started && r in t.needs[k]
      ensures r in s.started
    {
      var i :| 0 <= i < |s.started| && s.started[i] == k;
      assert r in s.started[..i];
    }
  }

  // ---------------------------------------------------------------- the final callback: when it is called once

  /** No task reports an error from inside the final callback, while that runs because of an earlier error. */
  ghost predicate NoErrorInFinal(t: Tasks, actions: seq<Action>) {
    actions == [] || (
      var n := |actions| - 1;
      && NoErrorInFinal(t, actions[..n])
      && !(actions[n].Fail? && actions[n].key in Run(t, actions[..n]).started && Run(t, actions[..n]).failing > 0))
  }

  ghost predicate CalledOnce(s: State) {
    if s.failing > 0 then s.live && s.failing == 1 && |s.reports| == 1
    else |s.reports| == if s.live then 0 else 1
  }

  lemma {:induction false} SetUpReports(t: Tasks, s: State, i: nat)
    ensures var s' := SetUp(t, s, i);
      s'.reports == s.reports && s'.live == s.live && s'.failing == s.failing && s'.results == s.results
      && s'.pending == s.pending && s'.remaining == s.remaining
    decreases |t.keys| - i
  {
    if i < |t.keys| && t.keys[i] in t.needs {
      SetUpReports(t, s.(listeners := [Waiting(t.keys[i])] + s.listeners), i + 1);
    }
  }

  lemma {:induction false} NotifyReports(t: Tasks, s: State, todo: seq<Listener>, i: nat)
    ensures var s' := NotifyFrom(t, s, todo, i);
      && s'.failing == s.failing && s'.results == s.results && s'.pending == s.pending && s'.remaining == s.remaining
      && ((s'.reports == s.reports && s'.live == s.live)
          || (s.live && s.remaining == 0 && !s'.live && s'.reports == s.reports + [Report(false, s.results)]))
    decreases |todo| - i
  {
    hide Ready;
    if i < |todo| {
      NotifyReports(t, s, todo, i + 1);
    }
  }

  lemma {:induction false} StepReports(t: Tasks, s: State, a: Action)
    ensures |Step(t, s, a).reports| >= |s.reports|
    ensures CalledOnce(s) && !(a.Fail? && a.key in s.started && s.failing > 0) ==> CalledOnce(Step(t, s, a))
    ensures CalledOnce(s) && a.Fail? && a.key in s.started && s.failing > 0 ==> |Step(t, s, a).reports| == 2
  {
    hide SetUp, NotifyFrom;
    if a.Return? && s.mode.Setup? {
      SetUpReports(t, s, s.mode.next);
    } else if a.Return? && s.mode.Notify? {
      NotifyReports(t, s, s.mode.todo, s.mode.next);
    } else if a.Fire? && s.pending > 0 {
      NotifyReports(t, s.(pending := s.pending - 1, remaining := s.remaining - 1), s.listeners, 0);
    }
  }

  lemma {:induction false} ReportsOnceWithout(t: Tasks, actions: seq<Action>)
    ensures NoErrorInFinal(t, actions) ==> CalledOnce(Run(t, actions))
    ensures !NoErrorInFinal(t, actions) ==> |Run(t, actions).reports| >= 2
  {
    hide Step;
    if actions == [] {
      SetUpReports(t, State(map[], |t.keys|, [Completion], true, 0, Idle, 0, [], [], false), 0);
    } else {
      var n := |actions| - 1;
      ReportsOnceWithout(t, actions[..n]);
      StepReports(t, Run(t, actions[..n]), actions[n]);
    }
  }

  /** The final callback is called at most once, unless a task reports an error from inside it after an earlier error:
      only once it has returned is it replaced by a function that does nothing. */
  lemma {:induction false} FinalCallbackOnce(t: Tasks, actions: seq<Action>)
    ensures |Run(t, actions).reports| <= 1 <==> NoErrorInFinal(t, actions)
  {
    ReportsOnceWithout(t, actions);
  }

  lemma {:induction false} StartsNext(t: Tasks, s: State, i: nat)
    requires i < |t.keys| && t.keys[i] in t.needs && t.needs[t.keys[i]] == [] && t.keys[i] !in s.results && !Hidden(s)
    ensures SetUp(t, s, i) == s.(started := s.started + [t.keys[i]], mode := Setup(i + 1))
  {
  }

  /** Two tasks that need nothing: once both are started the first fails, and the final callback has the second fail. */
  lemma {:induction false} FinalCallbackTwice(a: Key, b: Key, v: Result)
    requires a != b
    ensures |Run(Tasks([a, b], map[a := [], b := []]), [Return, Fail(a, v), Fail(b, v)]).reports| == 2
  {
    hide SetUp;
    var t := Tasks([a, b], map[a := [], b := []]);
    StartsNext(t, State(map[], 2, [Completion], true, 0, Idle, 0, [], [], false), 0);
    StartsNext(t, Begin(t), 1);
    RunSnoc(t, [], Return);
    RunSnoc(t, [Return], Fail(a, v));
    RunSnoc(t, [Return, Fail(a, v)], Fail(b, v));
    assert [] + [Return] == [Return] && [Return] + [Fail(a, v)] == [Return, Fail(a, v)];
    assert [Return, Fail(a, v)] + [Fail(b, v)] == [Return, Fail(a, v), Fail(b, v)];
    assert Run(t, [Return]).started == [a, b];
  }

  lemma {:induction false} RunSnoc(t: Tasks, actions: seq<Action>, a: Action)
    ensures Run(t, actions + [a]) == Step(t, Run(t, actions), a)
  {
    assert (actions + [a])[..|actions|] == actions;
  }

  // ---------------------------------------------------------------- completion

  /** A waiting task whose requirements have results will be looked at again. */
  ghost predicate Awake(t: Tasks, s: State) {
    !s.broken ==> forall k :: Waiting(k) in s.listeners && k in t.needs && HasAll(s.results, t.needs[k]) ==>
      s.pending > 0 || (s.mode.Notify? && exists j :: s.mode.next <= j < |s.mode.todo| && s.mode.todo[j] == Waiting(k))
  }

  function KeySet(t: Tasks): set<Key> { set k | k in t.keys }

  /** If all goes well, `remaining` is right, and once it is zero the final callback has been or is about to be
      called. */
  ghost predicate Tally(t: Tasks, s: State) {
    && s.failing == 0 && s.remaining == |t.keys| - |s.results| + s.pending
    && s.results.Keys <= KeySet(t)
    && (s.remaining == 0 && s.live ==>
          s.mode.Notify? && exists j :: s.mode.next <= j < |s.mode.todo| && s.mode.todo[j] == Completion)
    && (if s.live then s.reports == [] else s.results.Keys == KeySet(t) && s.reports == [Report(false, s.results)])
  }

  lemma {:induction false} SetUpAwake(t: Tasks, s: State, i: nat)
    requires t.Valid() && Inv(t, s.(mode := Setup(i))) && Awake(t, s.(mode := Setup(i)))
    ensures Awake(t, SetUp(t, s, i))
    decreases |t.keys| - i
  {
    hide Inv, HasAll;
    if i < |t.keys| {
      NotYetStarted(t, s, i);
      if !Hidden(s) && !Ready(t, s, t.keys[i]) {
        WaitKeeps(t, s, i);
        var s' := s.(listeners := [Waiting(t.keys[i])] + s.listeners);
        assert forall x :: x in s'.listeners <==> x == Waiting(t.keys[i]) || x in s.listeners;
        SetUpAwake(t, s', i + 1);
      }
    }
  }

  lemma {:induction false} NotYetStarted(t: Tasks, s: State, i: nat)
    requires Inv(t, s.(mode := Setup(i))) && i < |t.keys|
    ensures t.keys[i] !in s.results && t.keys[i] !in s.started
  {
    hide Founded;
  }

  lemma {:induction false} NotifyAwake(t: Tasks, s: State, todo: seq<Listener>, i: nat)
    requires t.Valid() && Inv(t, s.(mode := Notify(todo, i))) && Awake(t, s.(mode := Notify(todo, i)))
    ensures Awake(t, NotifyFrom(t, s, todo, i))
    decreases |todo| - i
  {
    hide Inv, HasAll, Without;
    if i < |todo| {
      ListenerFacts(t, s, todo, i);
      match todo[i]
      case Completion =>
        SkipKeeps(t, s, todo, i);
        if !(s.remaining == 0 && s.live) {
          NotifyAwake(t, s, todo, i + 1);
        }
      case Waiting(k) =>
        if !Hidden(s) && Ready(t, s, k) {
          WithoutMembers(s.listeners, todo[i]);
        } else if !Hidden(s) {
          SkipKeeps(t, s, todo, i);
          NotifyAwake(t, s, todo, i + 1);
        }
    }
  }

  lemma {:induction false} ListenerFacts(t: Tasks, s: State, todo: seq<Listener>, i: nat)
    requires t.Valid() && Inv(t, s.(mode := Notify(todo, i))) && i < |todo|
    ensures Distinct(s.listeners) && (todo[i].Waiting? ==>
      todo[i].key in t.keys && todo[i].key !in s.results && todo[i].key !in s.started)
  {
    hide Founded;
  }

  lemma {:induction false} AllOfThem<T>(a: set<T>, b: set<T>)
    requires a <= b && |a| >= |b|
    ensures a == b
  {
    if x :| x in b && x !in a {
      Smaller(a, b - {x});
    }
  }

  lemma {:induction false} Smaller<T>(a: set<T>, b: set<T>)
    requires a <= b
    ensures |a| <= |b|
  {
    if a != {} {
      var x :| x in a;
      Smaller(a - {x}, b - {x});
    }
  }

  lemma {:induction false} KeyCount(keys: seq<Key>)
    requires Distinct(keys)
    ensures |set k | k in keys| == |keys|
  {
    var ks := set k | k in keys;
    if keys != [] {
      var init, last := keys[..|keys| - 1], keys[|keys| - 1];
      KeyCount(init);
      assert keys == init + [last];
      assert last !in init;
      assert ks == (set k | k in init) + {last};
    }
  }

  lemma {:induction false} NotifyTally(t: Tasks, s: State, todo: seq<Listener>, i: nat)
    requires t.Valid() && Tally(t, s.(mode := Notify(todo, i)))
    requires forall j :: i <= j < |todo| && todo[j].Waiting? ==> todo[j].key in t.keys && todo[j].key !in s.results
    ensures Tally(t, NotifyFrom(t, s, todo, i))
    decreases |todo| - i
  {
    if i < |todo| {
      match todo[i]
      case Completion =>
        if s.remaining == 0 && s.live {
          KeyCount(t.keys);
          AllOfThem(s.results.Keys, KeySet(t));
        } else {
          NotifyTally(t, s, todo, i + 1);
        }
      case Waiting(k) =>
        StillRemaining(t, s, Notify(todo, i), k);
        if !Hidden(s) && !(k in t.needs && Ready(t, s, k)) {
          NotifyTally(t, s, todo, i + 1);
        }
    }
  }

  lemma {:induction false} StillRemaining(t: Tasks, s: State, mode: Mode, k: Key)
    requires t.Valid() && Tally(t, s.(mode := mode)) && k in t.keys && k !in s.results
    ensures s.remaining > 0
  {
    KeyCount(t.keys);
    if |s.results.Keys| >= |KeySet(t)| {
      AllOfThem(s.results.Keys, KeySet(t));
    }
  }

  lemma {:induction false} BeginGoing(t: Tasks)
    requires t.Valid()
    ensures Awake(t, Begin(t)) && Tally(t, Begin(t))
  {
    var s := State(map[], |t.keys|, [Completion], true, 0, Idle, 0, [], [], false);
    if t.keys != [] {
      SetUpAwake(t, s, 0);
      SetUpTally(t, s, 0);
    } else {
      assert KeySet(t) == {};
    }
  }

  lemma {:induction false} SucceedTally(t: Tasks, s: State, k: Key, v: Result)
    requires t.Valid() && Inv(t, s) && Tally(t, s) && k in s.started && k !in s.results
    ensures Tally(t, s.(results := s.results[k := v], pending := s.pending + 1))
  {
    StartedAreKeys(t, s);
    hide HasAll, Inv;
    assert s.results[k := v].Keys == s.results.Keys + {k};
    assert |s.results[k := v]| == |s.results[k := v].Keys|;
    assert |s.results| == |s.results.Keys|;
  }

  /** A task's first success, a return, or a deferred call. */
  ghost predicate Well(s: State, a: Action) { !a.Fail? && (a.Succeed? ==> a.key !in s.results) }

  lemma {:induction false} StepAwake(t: Tasks, s: State, a: Action)
    requires t.Valid() && Inv(t, s) && Awake(t, s) && Well(s, a)
    ensures Awake(t, Step(t, s, a))
  {
    hide SetUp, NotifyFrom, HasAll, Founded;
    match a
    case Succeed(k, v) =>
    case Return =>
      if s.failing == 0 && s.mode.Setup? {
        SetUpAwake(t, s, s.mode.next);
      } else if s.failing == 0 && s.mode.Notify? {
        NotifyAwake(t, s, s.mode.todo, s.mode.next);
      }
    case Fire =>
      if s.mode.Idle? && s.failing == 0 && s.pending > 0 {
        var s' := s.(pending := s.pending - 1, remaining := s.remaining - 1);
        SamePlaces(t, s, s'.(mode := Notify(s.listeners, 0)));
        NotifyAwake(t, s', s.listeners, 0);
      }
  }

  lemma {:induction false} StepTally(t: Tasks, s: State, a: Action)
    requires t.Valid() && Inv(t, s) && Tally(t, s) && Well(s, a)
    ensures Tally(t, Step(t, s, a))
  {
    hide SetUp, NotifyFrom, HasAll, Inv, KeySet, Hidden, Break, Ready;
    match a
    case Succeed(k, v) =>
      if k in s.started {
        SucceedTally(t, s, k, v);
      }
    case Return =>
      if s.mode.Setup? {
        SetUpTally(t, s, s.mode.next);
      } else if s.mode.Notify? {
        TodoFacts(t, s, s.mode.todo, s.mode.next);
        NotifyTally(t, s, s.mode.todo, s.mode.next);
      }
    case Fire =>
      if s.mode.Idle? && s.pending > 0 {
        FireTally(t, s);
        ListenersFacts(t, s);
        NotifyTally(t, s.(pending := s.pending - 1, remaining := s.remaining - 1), s.listeners, 0);
      }
  }

  lemma {:induction false} TodoFacts(t: Tasks, s: State, todo: seq<Listener>, i: nat)
    requires t.Valid() && Inv(t, s) && s.mode == Notify(todo, i)
    ensures forall j :: i <= j < |todo| && todo[j].Waiting? ==> todo[j].key in t.keys && todo[j].key !in s.results
  {
    hide Founded;
  }

  lemma {:induction false} ListenersFacts(t: Tasks, s: State)
    requires t.Valid() && Inv(t, s)
    ensures forall j :: 0 <= j < |s.listeners| && s.listeners[j].Waiting? ==>
      s.listeners[j].key in t.keys && s.listeners[j].key !in s.results
  {
    hide Founded;
  }

  lemma {:induction false} SetUpTally(t: Tasks, s: State, i: nat)
    requires Tally(t, s.(mode := Setup(i)))
    ensures Tally(t, SetUp(t, s, i))
  {
    hide SetUp;
    SetUpReports(t, s, i);
  }

  lemma {:induction false} FireTally(t: Tasks, s: State)
    requires Inv(t, s) && Tally(t, s) && s.mode.Idle? && s.pending > 0
    ensures Tally(t, s.(pending := s.pending - 1, remaining := s.remaining - 1, mode := Notify(s.listeners, 0)))
  {
    var j :| 0 <= j < |s.listeners| && s.listeners[j] == Completion;
  }

  /** No task fails, and none calls its callback again once it has a result. */
  ghost predicate GoesWell(t: Tasks, actions: seq<Action>) {
    actions == [] || (
      var n := |actions| - 1;
      GoesWell(t, actions[..n]) && Well(Run(t, actions[..n]), actions[n]))
  }

  lemma {:induction false} RunGoing(t: Tasks, actions: seq<Action>)
    requires t.Valid() && GoesWell(t, actions)
    ensures Awake(t, Run(t, actions)) && Tally(t, Run(t, actions))
  {
    hide Step, Inv, Awake, Tally, Begin, Well;
    if actions == [] {
      BeginGoing(t);
    } else {
      var n := |actions| - 1;
      RunKeeps(t, actions[..n]);
      RunGoing(t, actions[..n]);
      StepAwake(t, Run(t, actions[..n]), actions[n]);
      StepTally(t, Run(t, actions[..n]), actions[n]);
    }
  }

  /** All calls have returned, all deferred calls were made, and every started task has a result. */
  predicate Quiet(s: State) {
    s.mode.Idle? && s.failing == 0 && s.pending == 0 && forall k :: k in s.started ==> k in s.results
  }

  /** The tasks can be ordered so that each requires only earlier ones. */
  ghost predicate Acyclic(t: Tasks) { exists order :: Founded(t, order) && forall k :: k in t.keys ==> k in order }

  lemma {:induction false} EarlierDone(t: Tasks, s: State, order: seq<Key>, i: nat)
    requires t.Valid() && Inv(t, s) && Awake(t, s) && Quiet(s) && Founded(t, order) && i <= |order| && !s.broken
    ensures forall j :: 0 <= j < i ==> order[j] in s.results
  {
    if i > 0 {
      EarlierDone(t, s, order, i - 1);
      var k := order[i - 1];
      assert k in t.needs;
      forall r | r in t.needs[k]
        ensures r in s.results
      {
        assert r in order[..i - 1];
      }
      assert HasAll(s.results, t.needs[k]);
      assert Placed(t, s, k);
    }
  }

  // ---------------------------------------------------------------- when the library throws

  ghost predicate Unstarted(t: Tasks, s: State) { exists k :: k in t.keys && k !in s.started }

  /** The first result under the name of the method arrives before all tasks were started. */
  ghost predicate Hides(t: Tasks, s: State, a: Action) {
    a.Succeed? && a.key == HAS_OWN && HAS_OWN in s.started && HAS_OWN !in s.results && Unstarted(t, s)
  }

  ghost predicate HidesTooEarly(t: Tasks, actions: seq<Action>) {
    actions != [] && (
      var n := |actions| - 1;
      HidesTooEarly(t, actions[..n]) || Hides(t, Run(t, actions[..n]), actions[n]))
  }

  /** Some task is still to be looked at. */
  ghost predicate Coming(t: Tasks, s: State) {
    || s.pending > 0
    || (s.mode.Setup? && s.mode.next < |t.keys|)
    || (s.mode.Notify? && WaitingAhead(s.mode.todo, s.mode.next))
  }

  ghost predicate WaitingAhead(todo: seq<Listener>, i: nat) { exists j :: i <= j < |todo| && todo[j].Waiting? }

  /** Once the method is hidden and a task is not started, no task is started any more, and the library is about to
      throw, or has thrown. */
  ghost predicate HiddenInv(t: Tasks, s: State, early: bool) {
    (early <==> Hidden(s) && Unstarted(t, s)) && (early && !s.broken ==> Coming(t, s))
  }

  lemma {:induction false} SetUpHides(t: Tasks, s: State, i: nat)
    requires t.Valid()
    ensures var s' := SetUp(t, s, i);
      if Hidden(s) && i < |t.keys| then s' == Break(s)
      else s'.broken == s.broken && s'.results == s.results && s'.pending == s.pending
    ensures Hidden(s) ==> SetUp(t, s, i).started == s.started
    decreases |t.keys| - i
  {
    if i < |t.keys| && !Hidden(s) && !Ready(t, s, t.keys[i]) {
      SetUpHides(t, s.(listeners := [Waiting(t.keys[i])] + s.listeners), i + 1);
    }
  }

  lemma {:induction false} NotifyHides(t: Tasks, s: State, todo: seq<Listener>, i: nat)
    requires Hidden(s)
    ensures var s' := NotifyFrom(t, s, todo, i);
      && s'.results == s.results && s'.started == s.started && s'.pending == s.pending
      && (s.broken ==> s'.broken)
      && (WaitingAhead(todo, i) ==> s'.broken || (s'.mode.Notify? && WaitingAhead(s'.mode.todo, s'.mode.next)))
    decreases |todo| - i
  {
    hide Ready, Without;
    if i < |todo| && todo[i].Completion? {
      assert WaitingAhead(todo, i) ==> WaitingAhead(todo, i + 1);
      if !(s.remaining == 0 && s.live) {
        NotifyHides(t, s, todo, i + 1);
      }
    }
  }

  /** While the method is not hidden, returns and deferred calls do not hide it. */
  lemma {:induction false} NotHidden(t: Tasks, s: State, a: Action)
    requires !Hidden(s) && !a.Succeed?
    ensures !Hidden(Step(t, s, a))
  {
    hide SetUp, NotifyFrom;
    if a.Return? && s.mode.Setup? {
      SetUpReports(t, s, s.mode.next);
    } else if a.Return? && s.mode.Notify? {
      NotifyReports(t, s, s.mode.todo, s.mode.next);
    } else if a.Fire? && s.pending > 0 {
      NotifyReports(t, s.(pending := s.pending - 1, remaining := s.remaining - 1), s.listeners, 0);
    }
  }

  /** An idle library that has not thrown has every task that is not started among its listeners. */
  lemma {:induction false} UnstartedWaits(t: Tasks, s: State)
    requires Inv(t, s) && s.mode.Idle? && !s.broken && Unstarted(t, s)
    ensures WaitingAhead(s.listeners, 0)
  {
    hide Founded;
    var k :| k in t.keys && k !in s.started;
    assert Placed(t, s, k);
    var j :| 0 <= j < |s.listeners| && s.listeners[j] == Waiting(k);
  }

  lemma {:induction false} StepHidden(t: Tasks, s: State, a: Action)
    requires t.Valid() && Inv(t, s) && Hidden(s) && HiddenInv(t, s, Unstarted(t, s))
    ensures HiddenInv(t, Step(t, s, a), Unstarted(t, s))
  {
    hide SetUp, NotifyFrom, Inv;
    if a.Return? && s.failing == 0 && s.mode.Setup? {
      SetUpHides(t, s, s.mode.next);
    } else if a.Return? && s.failing == 0 && s.mode.Notify? {
      NotifyHides(t, s, s.mode.todo, s.mode.next);
    } else if a.Fire? && s.mode.Idle? && s.failing == 0 && s.pending > 0 {
      if !s.broken && Unstarted(t, s) {
        UnstartedWaits(t, s);
      }
      NotifyHides(t, s.(pending := s.pending - 1, remaining := s.remaining - 1), s.listeners, 0);
    }
  }

  lemma {:induction false} StepHides(t: Tasks, s: State, a: Action, early: bool)
    requires t.Valid() && Inv(t, s) && HiddenInv(t, s, early)
    ensures HiddenInv(t, Step(t, s, a), early || Hides(t, s, a))
  {
    hide SetUp, NotifyFrom, Inv;
    if Hidden(s) {
      StepHidden(t, s, a);
    } else if !a.Succeed? {
      NotHidden(t, s, a);
    }
  }

  lemma {:induction false} RunHidden(t: Tasks, actions: seq<Action>)
    requires t.Valid()
    ensures HiddenInv(t, Run(t, actions), HidesTooEarly(t, actions))
  {
    hide Step, Inv, HiddenInv, Hides, Begin;
    if actions == [] {
      BeginShown(t);
    } else {
      var n := |actions| - 1;
      RunKeeps(t, actions[..n]);
      RunHidden(t, actions[..n]);
      StepHides(t, Run(t, actions[..n]), actions[n], HidesTooEarly(t, actions[..n]));
    }
  }

  lemma {:induction false} BeginShown(t: Tasks)
    ensures HiddenInv(t, Begin(t), false)
  {
    hide SetUp;
    SetUpReports(t, State(map[], |t.keys|, [Completion], true, 0, Idle, 0, [], [], false), 0);
  }

  /** When all is quiet, the library has thrown exactly if the method was hidden before all tasks were started. */
  lemma {:induction false} ThrowsIffHidden(t: Tasks, actions: seq<Action>)
    requires t.Valid() && Quiet(Run(t, actions))
    ensures Run(t, actions).broken <==> HidesTooEarly(t, actions)
  {
    hide Run, HidesTooEarly, Founded;
    RunKeeps(t, actions);
    RunHidden(t, actions);
  }

  /** Provided that no task fails or calls back twice: when all is quiet, the final callback has been called, once,
      without an error and with a result for every key, exactly if the requirements are acyclic and name only keys, and
      the method was not hidden before all tasks were started. */
  lemma {:induction false} CompletesIffAcyclic(t: Tasks, actions: seq<Action>)
    requires t.Valid() && GoesWell(t, actions) && Quiet(Run(t, actions))
    ensures var s := Run(t, actions);
      if Acyclic(t) && !HidesTooEarly(t, actions)
      then s.results.Keys == KeySet(t) && s.reports == [Report(false, s.results)]
      else s.reports == []
  {
    hide Run, Inv, Awake, HidesTooEarly;
    var s := Run(t, actions);
    RunKeeps(t, actions);
    RunGoing(t, actions);
    ThrowsIffHidden(t, actions);
    if s.broken {
      BrokenIsLive(t, s);
    } else if Acyclic(t) {
      var order :| Founded(t, order) && forall k :: k in t.keys ==> k in order;
      EarlierDone(t, s, order, |order|);
      assert s.results.Keys == KeySet(t);
      KeyCount(t.keys);
      assert |s.results| == |s.results.Keys|;
    } else {
      ReportedAcyclic(t, s);
    }
  }

  lemma {:induction false} BrokenIsLive(t: Tasks, s: State)
    requires Inv(t, s) && Tally(t, s) && s.broken
    ensures s.reports == []
  {
    hide Founded;
    var k :| k in t.keys && k !in s.started;
    assert k in KeySet(t);
  }

  lemma {:induction false} StartedAreKeys(t: Tasks, s: State)
    requires t.Valid() && Inv(t, s)
    ensures forall k :: k in s.started ==> k in t.keys
  {
    forall k | k in s.started
      ensures k in t.keys
    {
      var i :| 0 <= i < |s.started| && s.started[i] == k;
      assert s.started[i] in t.needs;
    }
  }

  /** Without a task of that name the library never throws, nor if there is no other task. */
  lemma {:induction false} ThrowsForOneName(t: Tasks, actions: seq<Action>)
    requires t.Valid() && (HAS_OWN !in t.keys || t.keys == [HAS_OWN])
    ensures !Run(t, actions).broken && !HidesTooEarly(t, actions)
  {
    hide Run, HidesTooEarly;
    RunKeeps(t, actions);
    RunHidden(t, actions);
    StartedAreKeys(t, Run(t, actions));
  }

  lemma {:induction false} WaitsNext(t: Tasks, s: State, i: nat)
    requires i == |t.keys| - 1 && t.keys[i] in t.needs && !HasAll(s.results, t.needs[t.keys[i]]) && !Hidden(s)
    ensures SetUp(t, s, i) == s.(listeners := [Waiting(t.keys[i])] + s.listeners, mode := Idle)
  {
  }

  /** Two tasks of which the second waits for the first, and the first hides the method. */
  lemma {:induction false} HidingRun(t: Tasks, k: Key, v: Result)
    requires k != HAS_OWN && t == Tasks([HAS_OWN, k], map[HAS_OWN := [], k := [HAS_OWN]])
    ensures Run(t, []) == State(map[], 2, [Completion], true, 0, Setup(1), 0, [HAS_OWN], [], false)
    ensures var s1 := State(map[], 2, [Waiting(k)] + [Completion], true, 0, Idle, 0, [HAS_OWN], [], false);
      && Run(t, [Return]) == s1
      && Run(t, [Return, Succeed(HAS_OWN, v)]) == s1.(results := map[HAS_OWN := v], pending := 1)
  {
    hide SetUp, NotifyFrom;
    StartsNext(t, State(map[], 2, [Completion], true, 0, Idle, 0, [], [], false), 0);
    assert HAS_OWN in t.needs[k];
    WaitsNext(t, Run(t, []), 1);
    RunSnoc(t, [], Return);
    RunSnoc(t, [Return], Succeed(HAS_OWN, v));
    assert [] + [Return] == [Return] && [Return] + [Succeed(HAS_OWN, v)] == [Return, Succeed(HAS_OWN, v)];
  }

  /** Then the second is never started, although nothing fails, and the final callback never comes. */
  lemma {:induction false} HiddenMethodThrows(k: Key, v: Result)
    requires k != HAS_OWN
    ensures var t := Tasks([HAS_OWN, k], map[HAS_OWN := [], k := [HAS_OWN]]);
      var actions := [Return, Succeed(HAS_OWN, v), Fire];
      GoesWell(t, actions) && Quiet(Run(t, actions)) && Acyclic(t) && Run(t, actions).broken
        && Run(t, actions).reports == []
  {
    hide SetUp;
    var t := Tasks([HAS_OWN, k], map[HAS_OWN := [], k := [HAS_OWN]]);
    var one, two := [Return], [Return, Succeed(HAS_OWN, v)];
    HidingRun(t, k, v);
    RunSnoc(t, two, Fire);
    assert two + [Fire] == [Return, Succeed(HAS_OWN, v), Fire];
    GoesWellSnoc(t, [], Return);
    GoesWellSnoc(t, one, Succeed(HAS_OWN, v));
    GoesWellSnoc(t, two, Fire);
    assert [] + [Return] == one && one + [Succeed(HAS_OWN, v)] == two;
    assert Founded(t, [HAS_OWN, k]) by {
      assert [HAS_OWN, k][..1] == [HAS_OWN];
    }
  }

  lemma {:induction false} GoesWellSnoc(t: Tasks, actions: seq<Action>, a: Action)
    ensures GoesWell(t, actions + [a]) <==> GoesWell(t, actions) && Well(Run(t, actions), a)
  {
    assert (actions + [a])[..|actions|] == actions;
  }

  /** The order in which the tasks were started is one in which each requires only earlier ones. */
  lemma {:induction false} ReportedAcyclic(t: Tasks, s: State)
    requires Inv(t, s) && Tally(t, s)
    ensures s.reports != [] ==> Acyclic(t)
  {
    hide Founded;
    if !s.live {
      forall k | k in t.keys
        ensures k in s.started
      {
        assert k in KeySet(t);
      }
    }
  }
}
