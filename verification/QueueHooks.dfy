/** When the queue calls the hooks `drain`, `empty` and `saturated`. */
module QueueHooks {
  import opened Splices
  import opened AsyncQueue

  // ---------------------------------------------------------------- the drain hook

  /** An item's callback returns and leaves nothing queued and nothing running. */
  ghost predicate RunsDry(s: State, a: Action) {
    a.Return? && s.stack != [] && s.stack[|s.stack| - 1].Calling? && s.tasks == [] && s.running == {}
  }

  /** What an empty push has deferred is due. */
  ghost predicate IsAsked(s: State, a: Action) { a.FireDrain? && s.stack == [] && s.asked > 0 }

  lemma {:induction false} InsertDrains(s: State, n: nat, prio: int, front: bool)
    ensures var r := Insert(s, n, prio, front);
      r.drains == s.drains && r.drain == s.drain && r.taken == s.taken && r.paused == s.paused
    decreases n
  {
    hide Place;
    if n > 0 {
      var s' := Enqueue(s, prio, front);
      if |s'.tasks| != s.concurrency {
        InsertDrains(s'.(pending := s'.pending + 1), n - 1, prio, front);
      }
    }
  }

  /** While the hook is set it is called once by each callback that runs the queue dry and once for each empty push,
      and never otherwise. */
  lemma {:induction false} DrainCalls(s: State, a: Action)
    requires Bounded(s)
    ensures Step(s, a).drains == s.drains +
      if s.drain && RunsDry(s, a) then [Drained(false, s.finished)]
      else if s.drain && IsAsked(s, a) then [Drained(true, s.finished)]
      else []
    ensures s.drain && RunsDry(s, a) ==> Step(s, a).stack == s.stack[..|s.stack| - 1] + [Draining]
    ensures s.drain && IsAsked(s, a) ==> Step(s, a).stack == [Telling]
  {
    hide Starts, Opens, Insert;
    match a
    case Push(n, prio, front) => InsertDrains(s, n, prio, front);
    case Return =>
      if s.stack != [] && s.stack[|s.stack| - 1].Inserting? {
        var f := s.stack[|s.stack| - 1];
        var s' := s.(stack := s.stack[..|s.stack| - 1], pending := s.pending + 1);
        InsertDrains(s', f.rest, f.prio, f.front);
      }
    case _ =>
  }

  /** In the run there was a moment after `k` calls of the hook with nothing queued, nothing running and these items
      finished, at which the hook was set. */
  ghost predicate WasDry(start: State, actions: seq<Action>, k: nat, finished: set<nat>) {
    exists i: nat ::
      && i < |actions|
      && var s := Run(start, actions[..i]);
      s.drain && |s.drains| == k && s.finished == finished && RunsDry(s, actions[i])
  }

  /** No run calls the hook for a finished item while anything is queued or running. */
  lemma {:induction false} NeverDrainedEarly(concurrency: nat, priority: bool, actions: seq<Action>, k: nat)
    requires var s := Run(Init(concurrency, priority), actions); k < |s.drains| && !s.drains[k].asked
    ensures var start := Init(concurrency, priority);
      WasDry(start, actions, k, Run(start, actions).drains[k].finished)
  {
    hide Step, RunsDry;
    var start := Init(concurrency, priority);
    var n := |actions| - 1;
    assert actions != [];
    var s := Run(start, actions[..n]);
    RunKeeps(concurrency, priority, actions[..n]);
    DrainCalls(s, actions[n]);
    if k < |s.drains| {
      NeverDrainedEarly(concurrency, priority, actions[..n], k);
      var i: nat :| i < n && var t := Run(start, actions[..n][..i]);
        t.drain && |t.drains| == k && t.finished == s.drains[k].finished && RunsDry(t, actions[..n][i]);
      assert actions[..n][..i] == actions[..i];
    }
  }

  lemma {:induction false} StartingFrame(stack: seq<Frame>, id: nat)
    ensures StartingUp(stack, id) > 0 <==>
      exists i :: 0 <= i < |stack| && stack[i].Starting? && stack[i].task.id == id
  {
    if stack != [] {
      var n := |stack| - 1;
      StartingFrame(stack[..n], id);
      if StartingUp(stack[..n], id) > 0 {
        var i :| 0 <= i < n && stack[..n][i].Starting? && stack[..n][i].task.id == id;
        assert stack[i].Starting? && stack[i].task.id == id;
      }
      if i :| 0 <= i < |stack| && stack[i].Starting? && stack[i].task.id == id {
        assert i < n ==> stack[..n][i] == stack[i];
      }
    }
  }

  ghost predicate Done(s: State, id: nat) { id in s.finished || id in s.killed }

  /** Whether all pushed items are done when a callback runs the queue dry: exactly if no call of the `empty` hook is
      under way, since the item behind it is neither queued nor running. */
  lemma {:induction false} DryIsDoneIff(s: State, a: Action)
    requires Inv(s) && RunsDry(s, a)
    ensures (forall id: nat :: id < s.pushed ==> Done(s, id)) <==>
      (forall i :: 0 <= i < |s.stack| ==> !s.stack[i].Starting?)
  {
    hide Starts, Opens, Owes, StartingUp;
    forall id: nat
      ensures Done(s, id) <== id < s.pushed && StartingUp(s.stack, id) == 0
      ensures StartingUp(s.stack, id) > 0 ==> id < s.pushed && !Done(s, id)
    {
      assert Places(s, id) == One(id < s.pushed);
    }
    forall i | 0 <= i < |s.stack| && s.stack[i].Starting?
      ensures StartingUp(s.stack, s.stack[i].task.id) > 0
    {
      StartingFrame(s.stack, s.stack[i].task.id);
    }
    forall id: nat | StartingUp(s.stack, id) > 0
      ensures exists i :: 0 <= i < |s.stack| && s.stack[i].Starting?
    {
      StartingFrame(s.stack, id);
    }
  }

  lemma {:induction false} Goes(actions: seq<Action>, k: nat, from: State, to: State)
    requires k < |actions| && Run(Init(2, false), actions[..k]) == from && Step(from, actions[k]) == to
    ensures Run(Init(2, false), actions[..k + 1]) == to
  {
    assert actions[..k + 1][..k] == actions[..k];
  }

  function TwoItems(): seq<Action> {
    [SetDrain(true), Push(2, 0, false), Return, Fire, Return, Fire, Callback(0), Return,
      Return, Return, Return, Callback(1), Return]
  }

  function TwoTaken(): State {
    Init(2, false).(drain := true, pushed := 2, workers := 1, running := {0}, taken := [Task(0, 0), Task(1, 0)])
  }

  function OneFinished(): State {
    TwoTaken().(workers := 0, running := {}, finished := {0}, drains := [Drained(false, {0})])
  }

  lemma {:induction false} BothTaken()
    ensures Run(Init(2, false), TwoItems()[..6]) == TwoTaken().(stack := [Starting(Task(1, 0))])
  {
    hide Run, Insert;
    var x, y, acts := Task(0, 0), Task(1, 0), TwoItems();
    var s := Init(2, false).(drain := true, pushed := 2);
    TwoPushed();
    var s1 := Init(2, false).(drain := true);
    var s2 := s.(pending := 1, tasks := [x, y], stack := [Inserting(0, 0, false)]);
    var s3 := s.(pending := 2, tasks := [x, y]);
    var s4 := s.(pending := 1, tasks := [y], workers := 1, running := {0}, taken := [x], stack := [Working]);
    assert Run(Init(2, false), acts[..0]) == Init(2, false) by { RunNone(Init(2, false)); }
    Goes(acts, 0, Init(2, false), s1);
    Goes(acts, 1, s1, s2);
    assert Insert(s3, 0, 0, false) == s3 by { InsertNone(s3); }
    Goes(acts, 2, s2, s3);
    Goes(acts, 3, s3, s4);
    Goes(acts, 4, s4, s4.(stack := []));
    Goes(acts, 5, s4.(stack := []), TwoTaken().(stack := [Starting(y)]));
  }

  lemma {:induction false} RunNone(s: State)
    ensures Run(s, []) == s
  {
  }

  lemma {:induction false} InsertNone(s: State)
    ensures Insert(s, 0, 0, false) == s
  {
  }

  /** Of two items the first is finished inside the `empty` hook before the second, and the queue is drained twice. */
  lemma {:induction false} DrainedBeforeTheLast()
    ensures Run(Init(2, false), TwoItems()[..8]).pushed == 2
    ensures Run(Init(2, false), TwoItems()[..8]).drains == [Drained(false, {0})]
    ensures Run(Init(2, false), TwoItems()).drains == [Drained(false, {0}), Drained(false, {0, 1})]
  {
    hide Run;
    var y, acts := Task(1, 0), TwoItems();
    var s7 := OneFinished().(drains := [], stack := [Starting(y), Calling]);
    var s8 := OneFinished().(stack := [Starting(y), Draining]);
    var s9 := OneFinished().(stack := [Starting(y)]);
    var s10 := OneFinished().(workers := 1, running := {1}, stack := [Working]);
    var s11 := OneFinished().(workers := 1, running := {1});
    var s12 := OneFinished().(finished := {0, 1}, stack := [Calling]);
    BothTaken();
    Goes(acts, 6, TwoTaken().(stack := [Starting(y)]), s7);
    Goes(acts, 7, s7, s8);
    Goes(acts, 8, s8, s9);
    Goes(acts, 9, s9, s10);
    Goes(acts, 10, s10, s11);
    Goes(acts, 11, s11, s12);
    Goes(acts, 12, s12, Step(s12, Return));
    assert acts[..13] == acts;
  }

  lemma {:induction false} TwoPushed()
    ensures var s := Init(2, false).(drain := true);
      Insert(s, 2, 0, false) == s.(pending := 1, pushed := 2, tasks := [Task(0, 0), Task(1, 0)],
        stack := [Inserting(0, 0, false)])
  {
    var s := Init(2, false).(drain := true);
    var s' := s.(pending := 1, pushed := 1, tasks := [Task(0, 0)]);
    assert Enqueue(s, 0, false).(pending := 1) == s';
    assert Insert(s, 2, 0, false) == Insert(s', 1, 0, false);
    assert Enqueue(s', 0, false) == s'.(pushed := 2, tasks := [Task(0, 0), Task(1, 0)]);
  }

  // ---------------------------------------------------------------- the last item

  /** The hook was called, for a finished item, since the run reached `s0`, with exactly these items finished. */
  ghost predicate Answered(s0: State, s: State) {
    exists k :: |s0.drains| <= k < |s.drains| && s.drains[k] == Drained(false, s.finished)
  }

  ghost predicate HasCalling(stack: seq<Frame>) { exists i :: 0 <= i < |stack| && stack[i].Calling? }

  ghost predicate HasStarting(stack: seq<Frame>) { exists i :: 0 <= i < |stack| && stack[i].Starting? }

  /** An item is still to be finished, or a callback to return. */
  ghost predicate Open(s: State) {
    s.tasks != [] || s.running != {} || HasCalling(s.stack) || HasStarting(s.stack)
  }

  ghost predicate Watched(s0: State, s: State) {
    && s.drain && Bounded(s) && |s0.drains| <= |s.drains|
    && (s.finished == s0.finished || Open(s) || Answered(s0, s))
  }

  predicate LeavesDrain(a: Action) { a != KillAll && a != SetDrain(false) }

  lemma {:induction false} MoreFrames(stack: seq<Frame>, f: Frame)
    ensures HasCalling(stack + [f]) <==> HasCalling(stack) || f.Calling?
    ensures HasStarting(stack + [f]) <==> HasStarting(stack) || f.Starting?
  {
    forall i | 0 <= i < |stack|
      ensures (stack + [f])[i] == stack[i]
    {
    }
    assert (stack + [f])[|stack|] == f;
  }

  lemma {:induction false} InsertOpen(s: State, n: nat, prio: int, front: bool)
    ensures var r := Insert(s, n, prio, front);
      (Open(s) ==> Open(r)) && r.running == s.running && r.workers == s.workers
    decreases n
  {
    hide Place, HasCalling, HasStarting;
    if n > 0 {
      var s' := Enqueue(s, prio, front);
      assert s'.tasks != [];
      if |s'.tasks| == s.concurrency {
        MoreFrames(s.stack, Inserting(n - 1, prio, front));
      } else {
        InsertOpen(s'.(pending := s'.pending + 1), n - 1, prio, front);
      }
    }
  }

  lemma {:induction false} ProcessOpen(s: State)
    ensures Open(s) ==> Open(Process(s))
    ensures Process(s).finished == s.finished && Process(s).drains == s.drains && Process(s).drain == s.drain
  {
    hide HasCalling, HasStarting;
    if !s.paused && s.workers < s.concurrency && s.tasks != [] {
      var t := s.tasks[0];
      MoreFrames(s.stack, Starting(t));
      assert t.id in s.running + {t.id};
    }
  }

  lemma {:induction false} StaysWatched(s0: State, s: State, s': State)
    requires Watched(s0, s) && Bounded(s') && s'.drain && s'.finished == s.finished && s.drains <= s'.drains
    requires Open(s) ==> Open(s')
    ensures Watched(s0, s')
  {
    hide Bounded, Open;
    if Answered(s0, s) {
      var k :| |s0.drains| <= k < |s.drains| && s.drains[k] == Drained(false, s.finished);
      assert s'.drains[k] == s.drains[k];
    }
  }

  lemma {:induction false} LeaveWatched(s0: State, s: State)
    requires Watched(s0, s) && Inv(s) && s.stack != []
    ensures Watched(s0, Step(s, Return))
  {
    hide HasCalling, HasStarting, Conserved, Awake, Ordered, Starts, Opens, Owes, Insert;
    StepKeeps(s, Return);
    DrainCalls(s, Return);
    var n := |s.stack| - 1;
    var f, s' := s.stack[n], s.(stack := s.stack[..n]);
    assert s.stack == s'.stack + [f];
    MoreFrames(s'.stack, f);
    match f
    case Starting(t) =>
      assert t.id in Step(s, Return).running;
      StaysWatched(s0, s, Step(s, Return));
    case Working => StaysWatched(s0, s, s');
    case Calling =>
      ProcessOpen(s');
      MoreFrames(s'.stack, Draining);
      if RunsDry(s, Return) {
        assert Step(s, Return).drains[|s.drains|] == Drained(false, s.finished);
      } else {
        assert Step(s, Return) == Process(s');
        StaysWatched(s0, s, Process(s'));
      }
    case Draining =>
      ProcessOpen(s');
      StaysWatched(s0, s, Process(s'));
    case Telling => StaysWatched(s0, s, s');
    case Inserting(rest, prio, front) =>
      InsertOpen(s'.(pending := s'.pending + 1), rest, prio, front);
      InsertDrains(s'.(pending := s'.pending + 1), rest, prio, front);
      StaysWatched(s0, s, Step(s, Return));
  }

  lemma {:induction false} StepWatched(s0: State, s: State, a: Action)
    requires Watched(s0, s) && Inv(s) && LeavesDrain(a)
    ensures Watched(s0, Step(s, a))
  {
    hide HasCalling, HasStarting, Conserved, Awake, Ordered, Starts, Opens, Owes, Insert;
    StepKeeps(s, a);
    DrainCalls(s, a);
    match a
    case Push(n, prio, front) =>
      InsertOpen(s, n, prio, front);
      InsertDrains(s, n, prio, front);
      StaysWatched(s0, s, Step(s, a));
    case Callback(id) => MoreFrames(s.stack, Calling);
    case Return =>
      if s.stack != [] {
        LeaveWatched(s0, s);
      }
    case Fire =>
      if s.pending > 0 {
        ProcessOpen(s.(pending := s.pending - 1));
      }
      StaysWatched(s0, s, Step(s, a));
    case FireDrain =>
      MoreFrames(s.stack, Telling);
      StaysWatched(s0, s, Step(s, a));
    case _ => StaysWatched(s0, s, Step(s, a));
  }

  lemma {:induction false} RunWatched(s0: State, actions: seq<Action>)
    requires Inv(s0) && s0.drain
    requires forall i :: 0 <= i < |actions| ==> LeavesDrain(actions[i])
    ensures Inv(Run(s0, actions)) && Watched(s0, Run(s0, actions))
    decreases |actions|
  {
    hide Step, Conserved, Awake, Ordered, Open, Bounded, Answered;
    if actions != [] {
      var n := |actions| - 1;
      RunWatched(s0, actions[..n]);
      StepKeeps(Run(s0, actions[..n]), actions[n]);
      StepWatched(s0, Run(s0, actions[..n]), actions[n]);
    }
  }

  /** If the hook stays set from some moment of a run on, and in the end nothing is queued, running or under way, then
      it has been called after the last item of that time was finished. */
  lemma {:induction false} DrainedAtTheEnd(concurrency: nat, priority: bool, before: seq<Action>, actions: seq<Action>)
    requires Run(Init(concurrency, priority), before).drain
    requires forall i :: 0 <= i < |actions| ==> LeavesDrain(actions[i])
    ensures var s0 := Run(Init(concurrency, priority), before);
      var s := Run(s0, actions);
      s.stack == [] && s.tasks == [] && s.running == {} && s.finished != s0.finished ==> Answered(s0, s)
  {
    hide Inv;
    RunKeeps(concurrency, priority, before);
    RunWatched(Run(Init(concurrency, priority), before), actions);
  }

  // ---------------------------------------------------------------- killed items

  /** After `kill` the hook is not called for a finished item, nor for an empty push, until it is set again. */
  lemma {:induction false} KilledIsSilent(s: State, actions: seq<Action>)
    requires Inv(s) && !s.drain && forall i :: 0 <= i < |actions| ==> actions[i] != SetDrain(true)
    ensures Inv(Run(s, actions)) && !Run(s, actions).drain && Run(s, actions).drains == s.drains
    decreases |actions|
  {
    hide Conserved, Awake, Ordered, Bounded, Insert, Process, RunsDry, Step;
    if actions != [] {
      var n := |actions| - 1;
      var t := Run(s, actions[..n]);
      KilledIsSilent(s, actions[..n]);
      StepKeeps(t, actions[n]);
      DrainCalls(t, actions[n]);
      StaysUnset(t, actions[n]);
    }
  }

  lemma {:induction false} StaysUnset(s: State, a: Action)
    requires !s.drain && a != SetDrain(true)
    ensures !Step(s, a).drain
  {
    hide Insert;
    match a
    case Push(n, prio, front) => InsertDrains(s, n, prio, front);
    case Return =>
      if s.stack != [] && s.stack[|s.stack| - 1].Inserting? {
        var f := s.stack[|s.stack| - 1];
        var s' := s.(stack := s.stack[..|s.stack| - 1], pending := s.pending + 1);
        InsertDrains(s', f.rest, f.prio, f.front);
      }
    case _ =>
  }

  /** What was queued when the queue was killed is never run, and the hook never called again unless it is set again. */
  lemma {:induction false} KilledForGood(concurrency: nat, priority: bool, before: seq<Action>, actions: seq<Action>,
      i: nat)
    requires i < |Run(Init(concurrency, priority), before).tasks|
    ensures var s := Run(Init(concurrency, priority), before);
      var s' := Run(Step(s, KillAll), actions);
      && s.tasks[i].id !in s'.running && s.tasks[i].id !in s'.finished && Queued(s'.tasks, s.tasks[i].id) == 0
      && ((forall j :: 0 <= j < |actions| ==> actions[j] != SetDrain(true)) ==> s'.drains == s.drains)
  {
    hide Conserved, Awake, Ordered, Bounded, StartingUp, Queued;
    RunKeeps(concurrency, priority, before);
    var s := Run(Init(concurrency, priority), before);
    var s0 := Step(s, KillAll);
    StepKeeps(s, KillAll);
    assert s.tasks[i].id in s0.killed;
    StaysKilled(s0, s.tasks[i].id, actions);
    Elsewhere(Run(s0, actions), s.tasks[i].id);
    if forall j :: 0 <= j < |actions| ==> actions[j] != SetDrain(true) {
      KilledIsSilent(s0, actions);
    }
  }

  lemma {:induction false} StaysKilled(s: State, id: nat, actions: seq<Action>)
    requires Inv(s) && id in s.killed
    ensures Inv(Run(s, actions)) && id in Run(s, actions).killed
    decreases |actions|
  {
    hide Inv, Step;
    if actions != [] {
      var n := |actions| - 1;
      StaysKilled(s, id, actions[..n]);
      StepKeeps(Run(s, actions[..n]), actions[n]);
    }
  }

  lemma {:induction false} Elsewhere(s: State, id: nat)
    requires Conserved(s) && id in s.killed
    ensures id !in s.running && id !in s.finished && Queued(s.tasks, id) == 0
  {
    assert Places(s, id) == One(id < s.pushed);
  }

  // ---------------------------------------------------------------- the saturated and the empty hook

  /** How many of `n` items are inserted before the `saturated` hook is called, if it is. */
  function Accepted(s: State, n: nat): nat {
    if |s.tasks| < s.concurrency <= |s.tasks| + n then s.concurrency - |s.tasks| else n
  }

  function Upwards(first: nat, k: nat, prio: int): seq<Task> { seq(k, i requires 0 <= i < k => Task(first + i, prio)) }

  function Downwards(first: nat, k: nat, prio: int): seq<Task> {
    seq(k, i requires 0 <= i < k => Task(first + k - 1 - i, prio))
  }

  /** `tasks` are those of `s` and `k` further items of this priority, in a plain queue all behind or all in front. */
  ghost predicate Holds(s: State, tasks: seq<Task>, k: nat, prio: int, front: bool) {
    if s.priority then
      |tasks| == |s.tasks| + k && multiset(tasks) == multiset(s.tasks) + multiset(Upwards(s.pushed, k, prio))
    else
      tasks == if front then Downwards(s.pushed, k, prio) + s.tasks else s.tasks + Upwards(s.pushed, k, prio)
  }

  /** Inserting items calls the `saturated` hook exactly when the queue becomes as long as the concurrency, and defers
      one call of `process` for every item whose insertion was completed. */
  lemma {:induction false} SaturatedIff(s: State, n: nat, prio: int, front: bool)
    ensures var r := Insert(s, n, prio, front);
      var k := Accepted(s, n);
      var full := |s.tasks| < s.concurrency <= |s.tasks| + n;
      && Holds(s, r.tasks, k, prio, front) && r.pushed == s.pushed + k && |r.tasks| == |s.tasks| + k
      && r.stack == (if full then s.stack + [Inserting(n - k, prio, front)] else s.stack)
      && r.pending == s.pending + (if full then k - 1 else k)
      && r == s.(tasks := r.tasks, pushed := r.pushed, stack := r.stack, pending := r.pending)
    decreases n
  {
    hide Holds, Place;
    if n == 0 {
      HoldsNone(s, prio, front);
    } else {
      var s' := Enqueue(s, prio, front);
      HoldsOne(s, prio, front);
      if |s'.tasks| != s.concurrency {
        var s'' := s'.(pending := s'.pending + 1);
        SaturatedIff(s'', n - 1, prio, front);
        HoldsMore(s, s'', Insert(s'', n - 1, prio, front).tasks, Accepted(s'', n - 1), prio, front);
      }
    }
  }

  lemma {:induction false} HoldsNone(s: State, prio: int, front: bool)
    ensures Holds(s, s.tasks, 0, prio, front)
  {
  }

  lemma {:induction false} HoldsOne(s: State, prio: int, front: bool)
    ensures var tasks := Enqueue(s, prio, front).tasks; Holds(s, tasks, 1, prio, front) && |tasks| == |s.tasks| + 1
  {
    hide Upper;
    var t := Task(s.pushed, prio);
    assert Upwards(s.pushed, 1, prio) == [t];
    assert Downwards(s.pushed, 1, prio) == [t];
    InsertAdds(s.tasks, Place(s, prio, front), t);
  }

  lemma {:induction false} InsertAdds(tasks: seq<Task>, i: nat, t: Task)
    requires i <= |tasks|
    ensures multiset(InsertAt(tasks, i, t)) == multiset(tasks) + multiset([t])
  {
    assert tasks == tasks[..i] + tasks[i..];
  }

  lemma {:induction false} HoldsMore(s: State, s': State, tasks: seq<Task>, k: nat, prio: int, front: bool)
    requires Holds(s, s'.tasks, 1, prio, front) && s'.priority == s.priority && s'.pushed == s.pushed + 1
    requires Holds(s', tasks, k, prio, front)
    ensures Holds(s, tasks, k + 1, prio, front)
  {
    assert Upwards(s.pushed, k + 1, prio) == Upwards(s.pushed, 1, prio) + Upwards(s.pushed + 1, k, prio);
    assert Downwards(s.pushed, k + 1, prio) == Downwards(s.pushed + 1, k, prio) + Downwards(s.pushed, 1, prio);
  }

  /** What `Process` has done with the first task of `s`. */
  ghost predicate TookFirst(s: State, r: State) {
    && !s.paused && s.workers < s.concurrency && s.tasks != []
    && r.taken == s.taken + [s.tasks[0]] && r.tasks == s.tasks[1..]
    && r.stack != []
    && r.stack[|r.stack| - 1] == (if r.tasks == [] then Starting(s.tasks[0]) else Working)
    && r.running == (if r.tasks == [] then s.running else s.running + {s.tasks[0].id})
  }

  lemma {:induction false} ProcessTakes(s: State)
    ensures Process(s).taken == s.taken || TookFirst(s, Process(s))
  {
  }

  /** A step that takes an item off takes the first one. If that leaves nothing queued, the `empty` hook is called
      before the item runs, and else the item runs at once. */
  lemma {:induction false} EmptyIff(s: State, a: Action)
    requires Step(s, a).taken != s.taken
    ensures TookFirst(s, Step(s, a))
  {
    hide Insert, Process;
    match a
    case Push(n, prio, front) => InsertDrains(s, n, prio, front);
    case Return =>
      var f := s.stack[|s.stack| - 1];
      var s' := s.(stack := s.stack[..|s.stack| - 1]);
      ProcessTakes(s');
      if f.Inserting? {
        InsertDrains(s'.(pending := s.pending + 1), f.rest, f.prio, f.front);
      }
    case Fire => ProcessTakes(s.(pending := s.pending - 1));
    case _ =>
  }

  // ---------------------------------------------------------------- pausing

  /** From a pause on nothing is taken off until the queue is resumed, and then it is not paused. */
  lemma {:induction false} PausedUntilResumed(s: State, actions: seq<Action>)
    requires forall i :: 0 <= i < |actions| ==> actions[i] != Unpause
    ensures var s' := Run(Step(s, Pause), actions); s'.paused && s'.taken == s.taken && !Step(s', Unpause).paused
    decreases |actions|
  {
    hide Insert, Process;
    if actions != [] {
      var n := |actions| - 1;
      var t := Run(Step(s, Pause), actions[..n]);
      PausedUntilResumed(s, actions[..n]);
      StaysPaused(t, actions[n]);
    }
  }

  lemma {:induction false} StaysPaused(s: State, a: Action)
    requires s.paused && a != Unpause
    ensures Step(s, a).paused && Step(s, a).taken == s.taken
  {
    hide Insert;
    match a
    case Push(n, prio, front) => InsertDrains(s, n, prio, front);
    case Return =>
      if s.stack != [] && s.stack[|s.stack| - 1].Inserting? {
        var f := s.stack[|s.stack| - 1];
        var s' := s.(stack := s.stack[..|s.stack| - 1], pending := s.pending + 1);
        InsertDrains(s', f.rest, f.prio, f.front);
      }
    case _ =>
  }
}
