/** Debounced and throttled functions, as a machine driven by calls, timers and the returns of the wrapped function. */
module Debounce {
  import opened Wrappers

  /** `maxWait`, if any, is at least `wait`; a throttled function has the two equal. */
  datatype Options = Options(wait: nat, leading: bool, maxWait: Option<nat>, trailing: bool)
  {
    predicate Valid() { maxWait.Some? ==> maxWait.value >= wait }

    predicate Throttle() { maxWait == Some(wait) }
  }

  /** What happens when the wrapped function returns depends on where it was called: by a call past the maximum wait, by
      a leading call, or by a timer. */
  datatype Frame = PastMax | Leading | ByTimer

  /** A call of the wrapped function, with the arguments of the `call`-th call, when `known` calls had been made. */
  datatype Invocation = Invocation(time: int, call: Option<nat>, known: nat)

  /** Arguments are named by the number of the call that they came with. A timer is known by the time it is due. The
      last two fields record the times of all calls, and all invocations. */
  datatype State = State(
    args: Option<nat>, timer: Option<int>, maxTimer: Option<int>, stamp: int, trailingCall: bool, lastCalled: int,
    stack: seq<Frame>, clock: int, calls: seq<int>, invoked: seq<Invocation>)

  function Init(clock: nat): State { State(None, None, None, 0, false, 0, [], clock, [], []) }

  // ---------------------------------------------------------------- operations

  function Invoke(s: State, f: Frame): State {
    s.(invoked := s.invoked + [Invocation(s.clock, s.args, |s.calls|)], stack := s.stack + [f])
  }

  /** Lets go of the arguments unless a timer may still need them. */
  function Settle(s: State): State { if s.timer.None? && s.maxTimer.None? then s.(args := None) else s }

  function Arrive(o: Options, s: State): State {
    s.(args := Some(|s.calls|), calls := s.calls + [s.clock], stamp := s.clock,
       trailingCall := o.trailing && (s.timer.Some? || !o.leading))
  }

  function Call(o: Options, s: State): State {
    var s1 := Arrive(o, s);
    match o.maxWait
    case None =>
      var s2 := if s1.timer.None? then s1.(timer := Some(s1.clock + o.wait)) else s1;
      if o.leading && s1.timer.None? then Invoke(s2, Leading) else s2
    case Some(m) =>
      var s2 := if s1.maxTimer.None? && !o.leading then s1.(lastCalled := s1.clock) else s1;
      var remaining := m - (s2.clock - s2.lastCalled);
      if remaining <= 0 || remaining > m then Invoke(s2.(maxTimer := None, lastCalled := s2.clock), PastMax)
      else
        var s3 := if s2.maxTimer.None? then s2.(maxTimer := Some(s2.clock + remaining)) else s2;
        if s3.timer.None? && o.wait != m then s3.(timer := Some(s3.clock + o.wait)) else s3
  }

  function Leave(o: Options, s: State, f: Frame): State {
    match f
    case PastMax =>
      Settle(if s.timer.Some? then s.(timer := None)
             else if Some(o.wait) != o.maxWait then s.(timer := Some(s.clock + o.wait)) else s)
    case _ => Settle(s)
  }

  function Cleared(s: State): State { s.(timer := None, maxTimer := None, trailingCall := false) }

  function Delayed(o: Options, s: State): State {
    var remaining := o.wait - (s.clock - s.stamp);
    if remaining <= 0 || remaining > o.wait then
      if s.trailingCall then Invoke(Cleared(s).(lastCalled := s.clock), ByTimer) else Cleared(s)
    else s.(timer := Some(s.clock + remaining))
  }

  function MaxDelayed(o: Options, s: State): State {
    if o.trailing || Some(o.wait) != o.maxWait then Invoke(Cleared(s).(lastCalled := s.clock), ByTimer) else Cleared(s)
  }

  datatype Event = CallEvent | ReturnEvent | TimerEvent | MaxTimerEvent | CancelEvent

  datatype Action = At(time: int, event: Event)

  /** Timers only fire when no code is running. */
  function Step(o: Options, s: State, a: Action): State {
    var s' := s.(clock := a.time);
    match a.event
    case CallEvent => Call(o, s')
    case ReturnEvent =>
      if s.stack == [] then s' else Leave(o, s'.(stack := s.stack[..|s.stack| - 1]), s.stack[|s.stack| - 1])
    case TimerEvent => if s.stack == [] && s.timer.Some? then Delayed(o, s'.(timer := None)) else s'
    case MaxTimerEvent => if s.stack == [] && s.maxTimer.Some? then MaxDelayed(o, s'.(maxTimer := None)) else s'
    case CancelEvent => Cleared(s')
  }

  function Run(o: Options, clock: nat, actions: seq<Action>): State {
    if actions == [] then Init(clock) else Step(o, Run(o, clock, actions[..|actions| - 1]), actions[|actions| - 1])
  }

  // ---------------------------------------------------------------- what the environment does

  /** The clock does not run backwards, and no timer fires before it is due. */
  predicate Legal(s: State, a: Action) {
    && a.time >= s.clock
    && (a.event.TimerEvent? && s.timer.Some? ==> a.time >= s.timer.value)
    && (a.event.MaxTimerEvent? && s.maxTimer.Some? ==> a.time >= s.maxTimer.value)
  }

  ghost predicate LegalRun(o: Options, clock: nat, actions: seq<Action>) {
    actions == [] || (
      LegalRun(o, clock, actions[..|actions| - 1])
      && Legal(Run(o, clock, actions[..|actions| - 1]), actions[|actions| - 1]))
  }

  /** Nothing happens after a pending timer is due, but for the timer, and nobody cancels. */
  predicate Prompt(s: State, a: Action) {
    && !a.event.CancelEvent?
    && (s.maxTimer.Some? ==> a.time <= s.maxTimer.value)
    && (s.timer.Some? ==> a.time <= s.timer.value)
  }

  ghost predicate PromptRun(o: Options, clock: nat, actions: seq<Action>) {
    actions == [] || (
      PromptRun(o, clock, actions[..|actions| - 1])
      && Prompt(Run(o, clock, actions[..|actions| - 1]), actions[|actions| - 1]))
  }

  // ---------------------------------------------------------------- throttle: invocations are spaced out

  ghost predicate Spaced(o: Options, invoked: seq<Invocation>) {
    forall i, j :: 0 <= i < j < |invoked| ==> invoked[j].time - invoked[i].time >= o.wait
  }

  ghost predicate SpacedInv(o: Options, s: State) {
    && s.timer.None?
    && 0 <= s.lastCalled <= s.clock
    && (s.maxTimer.Some? ==> s.maxTimer.value == s.lastCalled + o.wait)
    && Spaced(o, s.invoked)
    && (forall i :: 0 <= i < |s.invoked| ==> s.invoked[i].time <= s.lastCalled)
  }

  lemma {:induction false} SpacedSnoc(o: Options, invoked: seq<Invocation>, v: Invocation)
    requires Spaced(o, invoked) && forall i :: 0 <= i < |invoked| ==> invoked[i].time + o.wait <= v.time
    ensures Spaced(o, invoked + [v])
  {
  }

  lemma {:induction false} InvokeSpaced(o: Options, s: State, s': State, f: Frame)
    requires SpacedInv(o, s) && s.lastCalled + o.wait <= s'.clock
    requires s'.invoked == s.invoked && s'.timer.None? && s'.maxTimer.None? && s'.lastCalled == s'.clock
    ensures SpacedInv(o, Invoke(s', f))
  {
    SpacedSnoc(o, s.invoked, Invocation(s'.clock, s'.args, |s'.calls|));
    hide Spaced;
  }

  lemma {:induction false} CallSpaced(o: Options, s: State)
    requires o.Throttle() && SpacedInv(o, s)
    ensures SpacedInv(o, Call(o, s))
  {
    hide Spaced;
    var s1 := Arrive(o, s);
    var s2 := if s1.maxTimer.None? && !o.leading then s1.(lastCalled := s1.clock) else s1;
    var remaining := o.wait - (s2.clock - s2.lastCalled);
    if remaining <= 0 || remaining > o.wait {
      if s2.lastCalled == s.lastCalled {
        InvokeSpaced(o, s, s2.(maxTimer := None, lastCalled := s2.clock), PastMax);
      } else {
        LaterLast(o, s, s2);
        InvokeSpaced(o, s2, s2.(maxTimer := None, lastCalled := s2.clock), PastMax);
      }
    }
  }

  lemma {:induction false} LaterLast(o: Options, s: State, s': State)
    requires SpacedInv(o, s) && s.lastCalled <= s'.lastCalled <= s'.clock
    requires s'.invoked == s.invoked && s'.timer.None? && s'.maxTimer.None?
    ensures SpacedInv(o, s')
  {
  }

  lemma {:induction false} StepSpaced(o: Options, s: State, a: Action)
    requires o.Throttle() && SpacedInv(o, s) && Legal(s, a)
    ensures SpacedInv(o, Step(o, s, a))
  {
    hide Spaced, Call, Invoke;
    var s' := s.(clock := a.time);
    match a.event
    case CallEvent => CallSpaced(o, s');
    case MaxTimerEvent =>
      if s.stack == [] && s.maxTimer.Some? {
        InvokeSpaced(o, s, Cleared(s').(lastCalled := s'.clock), ByTimer);
      }
    case _ =>
  }

  lemma {:induction false} RunSpaced(o: Options, clock: nat, actions: seq<Action>)
    requires o.Throttle() && LegalRun(o, clock, actions)
    ensures SpacedInv(o, Run(o, clock, actions))
  {
    hide Step, SpacedInv, Legal;
    if actions == [] {
      InitSpaced(o, clock);
    } else {
      RunSpaced(o, clock, actions[..|actions| - 1]);
      StepSpaced(o, Run(o, clock, actions[..|actions| - 1]), actions[|actions| - 1]);
    }
  }

  lemma {:induction false} InitSpaced(o: Options, clock: nat)
    ensures SpacedInv(o, Init(clock))
  {
  }

  /** A throttled function never invokes the wrapped one twice within `wait`. */
  lemma {:induction false} ThrottleSpaces(o: Options, clock: nat, actions: seq<Action>)
    requires o.Throttle() && LegalRun(o, clock, actions)
    ensures Spaced(o, Run(o, clock, actions).invoked)
  {
    RunSpaced(o, clock, actions);
  }

  // ---------------------------------------------------------------- throttle: every call is served in time

  /** The invocation comes no earlier than call `i` and at most `wait` later, with the arguments of that call or a later
      one. */
  predicate Serves(o: Options, s: State, v: Invocation, i: nat)
    requires i < |s.calls|
  {
    v.call.Some? && i <= v.call.value < |s.calls| && s.calls[i] <= v.time <= s.calls[i] + o.wait
  }

  ghost predicate Served(o: Options, s: State, i: nat)
    requires i < |s.calls|
  {
    exists k :: 0 <= k < |s.invoked| && Serves(o, s, s.invoked[k], i)
  }

  /** Every call has been served, or the timer is due in time to serve it. */
  ghost predicate ServedInv(o: Options, s: State) {
    && (forall i :: 0 <= i < |s.calls| ==> s.calls[i] <= s.clock)
    && (s.maxTimer.Some? ==> s.calls != [] && s.args == Some(|s.calls| - 1) && s.clock <= s.maxTimer.value)
    && (forall i :: 0 <= i < |s.calls| ==>
          Served(o, s, i) || (s.maxTimer.Some? && s.maxTimer.value <= s.calls[i] + o.wait))
  }

  lemma {:induction false} ServedGrows(o: Options, s: State, s': State, i: nat)
    requires i < |s.calls| && s.calls <= s'.calls && s.invoked <= s'.invoked && Served(o, s, i)
    ensures Served(o, s', i)
  {
    var k :| 0 <= k < |s.invoked| && Serves(o, s, s.invoked[k], i);
    assert Serves(o, s', s'.invoked[k], i);
  }

  /** An invocation on time serves all calls so far. */
  lemma {:induction false} InvokeServes(o: Options, s: State, s': State, f: Frame)
    requires ServedInv(o, s) && (s.maxTimer.Some? ==> s'.clock <= s.maxTimer.value) && s'.clock >= s.clock
    requires s.calls <= s'.calls && s'.invoked == s.invoked && |s'.calls| <= |s.calls| + 1
    requires |s'.calls| > |s.calls| ==> s'.calls[|s.calls|] == s'.clock
    requires s'.calls != [] && s'.args == Some(|s'.calls| - 1) && s'.maxTimer.None?
    ensures ServedInv(o, Invoke(s', f))
  {
    var t := Invoke(s', f);
    var v := Invocation(s'.clock, s'.args, |s'.calls|);
    assert t.invoked[|s.invoked|] == v;
    forall i | 0 <= i < |t.calls|
      ensures Served(o, t, i)
    {
      if i < |s.calls| && Served(o, s, i) {
        ServedGrows(o, s, t, i);
      } else {
        assert Serves(o, t, v, i);
      }
    }
  }

  lemma {:induction false} WaitServes(o: Options, s: State, s': State)
    requires ServedInv(o, s) && s'.clock >= s.clock && s'.invoked == s.invoked
    requires s'.calls == s.calls + [s'.clock] && s'.args == Some(|s.calls|)
    requires s'.maxTimer.Some? && s'.clock <= s'.maxTimer.value <= s'.clock + o.wait
    requires s.maxTimer.Some? ==> s'.maxTimer == s.maxTimer
    ensures ServedInv(o, s')
  {
    forall i | 0 <= i < |s'.calls|
      ensures Served(o, s', i) || s'.maxTimer.value <= s'.calls[i] + o.wait
    {
      if i < |s.calls| && Served(o, s, i) {
        ServedGrows(o, s, s', i);
      }
    }
  }

  lemma {:induction false} CallServes(o: Options, s: State, now: int)
    requires o.Throttle() && o.trailing && SpacedInv(o, s) && ServedInv(o, s)
    requires now >= s.clock && (s.maxTimer.Some? ==> now <= s.maxTimer.value)
    ensures ServedInv(o, Call(o, s.(clock := now)))
  {
    hide Spaced, ServedInv, Invoke;
    var s1 := Arrive(o, s.(clock := now));
    var s2 := if s1.maxTimer.None? && !o.leading then s1.(lastCalled := now) else s1;
    var remaining := o.wait - (now - s2.lastCalled);
    if remaining <= 0 || remaining > o.wait {
      InvokeServes(o, s, s2.(maxTimer := None, lastCalled := now), PastMax);
    } else {
      WaitServes(o, s, Call(o, s.(clock := now)));
    }
  }

  /** A step without calls and invocations. */
  lemma {:induction false} IdleServes(o: Options, s: State, s': State)
    requires ServedInv(o, s) && s'.calls == s.calls && s'.invoked == s.invoked && s'.maxTimer == s.maxTimer
    requires s'.clock >= s.clock && (s.maxTimer.Some? ==> s'.clock <= s.maxTimer.value && s'.args == s.args)
    ensures ServedInv(o, s')
  {
    forall i | 0 <= i < |s'.calls|
      ensures Served(o, s', i) || (s'.maxTimer.Some? && s'.maxTimer.value <= s'.calls[i] + o.wait)
    {
      if Served(o, s, i) {
        ServedGrows(o, s, s', i);
      }
    }
  }

  lemma {:induction false} StepServes(o: Options, s: State, a: Action)
    requires o.Throttle() && o.trailing && SpacedInv(o, s) && ServedInv(o, s) && Legal(s, a) && Prompt(s, a)
    ensures ServedInv(o, Step(o, s, a))
  {
    hide Spaced, ServedInv, Call, Invoke;
    var s' := s.(clock := a.time);
    match a.event
    case CallEvent => CallServes(o, s, a.time);
    case MaxTimerEvent =>
      if s.stack == [] && s.maxTimer.Some? {
        NewestArgs(o, s);
        InvokeServes(o, s, Cleared(s').(lastCalled := s'.clock), ByTimer);
      } else {
        IdleServes(o, s, s');
      }
    case _ => IdleServes(o, s, Step(o, s, a));
  }

  lemma {:induction false} NewestArgs(o: Options, s: State)
    requires ServedInv(o, s) && s.maxTimer.Some?
    ensures s.calls != [] && s.args == Some(|s.calls| - 1)
  {
  }

  lemma {:induction false} RunServes(o: Options, clock: nat, actions: seq<Action>)
    requires o.Throttle() && o.trailing && LegalRun(o, clock, actions) && PromptRun(o, clock, actions)
    ensures ServedInv(o, Run(o, clock, actions))
  {
    hide Step, SpacedInv, ServedInv, Legal, Prompt;
    if actions == [] {
      InitServes(o, clock);
    } else {
      RunServes(o, clock, actions[..|actions| - 1]);
      RunSpaced(o, clock, actions[..|actions| - 1]);
      StepServes(o, Run(o, clock, actions[..|actions| - 1]), actions[|actions| - 1]);
    }
  }

  lemma {:induction false} InitServes(o: Options, clock: nat)
    ensures ServedInv(o, Init(clock))
  {
  }

  /** With trailing invocations, timers on time and no cancelling, every call to a throttled function is answered within
      `wait` by an invocation with its own or newer arguments. */
  lemma {:induction false} ThrottleAnswers(o: Options, clock: nat, actions: seq<Action>, i: nat)
    requires o.Throttle() && o.trailing && LegalRun(o, clock, actions) && PromptRun(o, clock, actions)
    ensures var s := Run(o, clock, actions);
      i < |s.calls| && s.clock > s.calls[i] + o.wait ==> Served(o, s, i)
  {
    RunServes(o, clock, actions);
  }

  // ---------------------------------------------------------------- arguments

  ghost predicate NewestInv(o: Options, s: State) {
    && (s.timer.Some? || s.maxTimer.Some? ==> s.calls != [] && s.args == Some(|s.calls| - 1))
    && (forall k :: 0 <= k < |s.invoked| ==>
          s.invoked[k].known > 0 && s.invoked[k].call == Some(s.invoked[k].known - 1))
    && (o.Throttle() ==> s.timer.None?)
    && (o.maxWait.None? ==> s.maxTimer.None? && forall k :: 0 <= k < |s.stack| ==> !s.stack[k].PastMax?)
  }

  lemma {:induction false} InvokeNewest(o: Options, s: State, s': State, f: Frame)
    requires NewestInv(o, s) && s'.invoked == s.invoked && s'.stack == s.stack
    requires s'.calls != [] && s'.args == Some(|s'.calls| - 1)
    requires (o.Throttle() ==> s'.timer.None?) && (o.maxWait.None? ==> s'.maxTimer.None? && !f.PastMax?)
    ensures NewestInv(o, Invoke(s', f))
  {
  }

  lemma {:induction false} CallNewest(o: Options, s: State)
    requires (o.Throttle() || o.maxWait.None?) && NewestInv(o, s)
    ensures NewestInv(o, Call(o, s))
  {
    hide Invoke;
    var s1 := Arrive(o, s);
    match o.maxWait
    case None => InvokeNewest(o, s, if s1.timer.None? then s1.(timer := Some(s1.clock + o.wait)) else s1, Leading);
    case Some(m) =>
      var s2 := if s1.maxTimer.None? && !o.leading then s1.(lastCalled := s1.clock) else s1;
      InvokeNewest(o, s, s2.(maxTimer := None, lastCalled := s2.clock), PastMax);
  }

  lemma {:induction false} TimerNewest(o: Options, s: State)
    requires (o.Throttle() || o.maxWait.None?) && NewestInv(o, s)
    ensures s.timer.Some? ==> NewestInv(o, Delayed(o, s.(timer := None)))
    ensures s.maxTimer.Some? ==> NewestInv(o, MaxDelayed(o, s.(maxTimer := None)))
  {
    hide Invoke;
    if s.timer.Some? || s.maxTimer.Some? {
      InvokeNewest(o, s, Cleared(s).(lastCalled := s.clock), ByTimer);
    }
  }

  lemma {:induction false} StepNewest(o: Options, s: State, a: Action)
    requires (o.Throttle() || o.maxWait.None?) && NewestInv(o, s)
    ensures NewestInv(o, Step(o, s, a))
  {
    hide Call, Delayed, MaxDelayed;
    var s' := s.(clock := a.time);
    match a.event
    case CallEvent => CallNewest(o, s');
    case TimerEvent => TimerNewest(o, s');
    case MaxTimerEvent => TimerNewest(o, s');
    case _ =>
  }

  /** However often the wrapped function calls back into the throttled or debounced one, and with or without cancelling,
      it is invoked with the newest arguments only, and never without. */
  lemma {:induction false} InvokedWithNewest(o: Options, clock: nat, actions: seq<Action>)
    requires o.Throttle() || o.maxWait.None?
    ensures NewestInv(o, Run(o, clock, actions))
  {
    hide Step;
    if actions != [] {
      InvokedWithNewest(o, clock, actions[..|actions| - 1]);
      StepNewest(o, Run(o, clock, actions[..|actions| - 1]), actions[|actions| - 1]);
    }
  }

  // ---------------------------------------------------------------- arguments, with a longer maximum wait

  /** Since the newest call, if any, some call of the wrapped function has returned when no timer was pending. */
  ghost predicate LetGo(o: Options, clock: nat, actions: seq<Action>) {
    actions == [] || (
      var n := |actions| - 1;
      match actions[n].event
      case CallEvent => false
      case ReturnEvent =>
        || LetGo(o, clock, actions[..n])
        || (Run(o, clock, actions[..n]).stack != [] && Run(o, clock, actions).timer.None?
          && Run(o, clock, actions).maxTimer.None?)
      case _ => LetGo(o, clock, actions[..n]))
  }

  /** The timer fires and finds that the wrapped function is to be invoked. */
  predicate Fires(o: Options, s: State, a: Action) {
    && a.event.TimerEvent? && s.stack == [] && s.timer.Some? && s.trailingCall
    && (a.time - s.stamp >= o.wait || a.time < s.stamp)
  }

  /** No timer invokes the wrapped function after the arguments were let go. */
  ghost predicate FiresWithArgs(o: Options, clock: nat, actions: seq<Action>) {
    actions == [] || (
      var n := |actions| - 1;
      FiresWithArgs(o, clock, actions[..n])
      && !(LetGo(o, clock, actions[..n]) && Fires(o, Run(o, clock, actions[..n]), actions[n])))
  }

  ghost predicate AllNewest(invoked: seq<Invocation>) {
    forall k :: 0 <= k < |invoked| ==> invoked[k].known > 0 && invoked[k].call == Some(invoked[k].known - 1)
  }

  /** What the history says about the arguments. */
  ghost predicate ArgsInv(s: State, letGo: bool) {
    && (if letGo then s.args == None else s.calls != [] && s.args == Some(|s.calls| - 1))
    && (s.maxTimer.Some? ==> !letGo)
  }

  lemma {:induction false} StepArgs(o: Options, s: State, a: Action, letGo: bool)
    requires ArgsInv(s, letGo)
    ensures var s' := Step(o, s, a);
      ArgsInv(s', match a.event
        case CallEvent => false
        case ReturnEvent => letGo || (s.stack != [] && s'.timer.None? && s'.maxTimer.None?)
        case _ => letGo)
  {
  }

  lemma {:induction false} RunArgs(o: Options, clock: nat, actions: seq<Action>)
    ensures ArgsInv(Run(o, clock, actions), LetGo(o, clock, actions))
  {
    hide Step, ArgsInv;
    if actions == [] {
      assert ArgsInv(Init(clock), true) by { NoArgs(clock); }
    } else {
      var n := |actions| - 1;
      RunArgs(o, clock, actions[..n]);
      StepArgs(o, Run(o, clock, actions[..n]), actions[n], LetGo(o, clock, actions[..n]));
    }
  }

  lemma {:induction false} NoArgs(clock: nat)
    ensures ArgsInv(Init(clock), true)
  {
  }

  lemma {:induction false} StepAllNewest(o: Options, s: State, a: Action, letGo: bool)
    requires ArgsInv(s, letGo)
    ensures AllNewest(Step(o, s, a).invoked) <==> AllNewest(s.invoked) && !(letGo && Fires(o, s, a))
  {
    hide AllNewest;
    var s' := Step(o, s, a);
    StepInvokes(o, s, a, letGo);
    if s'.invoked != s.invoked {
      NewestSnoc(s.invoked, s'.invoked[|s.invoked|]);
    }
  }

  lemma {:induction false} StepInvokes(o: Options, s: State, a: Action, letGo: bool)
    requires ArgsInv(s, letGo)
    ensures var r := Step(o, s, a).invoked;
      if r == s.invoked then !Fires(o, s, a)
      else
        && |r| == |s.invoked| + 1
        && r == s.invoked + [r[|s.invoked|]]
        && var v := r[|s.invoked|]; v.known > 0 && v.call == Some(v.known - 1) <==> !(letGo && Fires(o, s, a))
  {
    if a.event.CallEvent? {
      CallInvokes(o, s.(clock := a.time));
      hide Call;
    } else {
      hide Call;
    }
  }

  lemma {:induction false} CallInvokes(o: Options, s: State)
    ensures var r := Call(o, s).invoked;
      r == s.invoked || r == s.invoked + [Invocation(s.clock, Some(|s.calls|), |s.calls| + 1)]
  {
  }

  lemma {:induction false} NewestSnoc(invoked: seq<Invocation>, v: Invocation)
    ensures AllNewest(invoked + [v]) <==> AllNewest(invoked) && v.known > 0 && v.call == Some(v.known - 1)
  {
    assert (invoked + [v])[|invoked|] == v;
    assert forall k :: 0 <= k < |invoked| ==> (invoked + [v])[k] == invoked[k];
  }

  /** Whatever the options: every invocation has the newest arguments exactly if no timer invokes the function after
      some call of it has returned, since the newest call, when no timer was pending. */
  lemma {:induction false} NewestIff(o: Options, clock: nat, actions: seq<Action>)
    ensures AllNewest(Run(o, clock, actions).invoked) <==> FiresWithArgs(o, clock, actions)
  {
    hide Step, ArgsInv, LetGo, Fires, AllNewest;
    if actions == [] {
      NoneInvoked();
    } else {
      var n := |actions| - 1;
      NewestIff(o, clock, actions[..n]);
      RunArgs(o, clock, actions[..n]);
      StepAllNewest(o, Run(o, clock, actions[..n]), actions[n], LetGo(o, clock, actions[..n]));
    }
  }

  lemma {:induction false} NoneInvoked()
    ensures AllNewest([])
  {
  }

  /** The wrapped function never calls back. */
  ghost predicate NoCallback(o: Options, clock: nat, actions: seq<Action>) {
    actions == [] || (
      var n := |actions| - 1;
      NoCallback(o, clock, actions[..n]) && (actions[n].event.CallEvent? ==> Run(o, clock, actions[..n]).stack == []))
  }

  ghost predicate Shallow(s: State, letGo: bool) {
    |s.stack| <= 1 && (s.stack != [] || s.timer.Some? ==> !letGo)
  }

  lemma {:induction false} StepShallow(o: Options, s: State, a: Action, letGo: bool)
    requires ArgsInv(s, letGo) && Shallow(s, letGo) && (a.event.CallEvent? ==> s.stack == [])
    ensures var s' := Step(o, s, a);
      Shallow(s', match a.event
        case CallEvent => false
        case ReturnEvent => letGo || (s.stack != [] && s'.timer.None? && s'.maxTimer.None?)
        case _ => letGo)
  {
  }

  lemma {:induction false} RunShallow(o: Options, clock: nat, actions: seq<Action>)
    requires NoCallback(o, clock, actions)
    ensures Shallow(Run(o, clock, actions), LetGo(o, clock, actions)) && FiresWithArgs(o, clock, actions)
  {
    hide Step, ArgsInv;
    if actions != [] {
      var n := |actions| - 1;
      RunShallow(o, clock, actions[..n]);
      RunArgs(o, clock, actions[..n]);
      StepShallow(o, Run(o, clock, actions[..n]), actions[n], LetGo(o, clock, actions[..n]));
    }
  }

  /** If the wrapped function never calls back, it is invoked with the newest arguments, whatever the options. */
  lemma {:induction false} NewestWithoutCallback(o: Options, clock: nat, actions: seq<Action>)
    requires NoCallback(o, clock, actions)
    ensures AllNewest(Run(o, clock, actions).invoked)
  {
    RunShallow(o, clock, actions);
    NewestIff(o, clock, actions);
  }

  lemma {:induction false} RunSnoc(o: Options, clock: nat, actions: seq<Action>, a: Action)
    ensures Run(o, clock, actions + [a]) == Step(o, Run(o, clock, actions), a)
  {
    assert (actions + [a])[..|actions|] == actions;
  }

  const LONGER: Options := Options(1, true, Some(2), true)

  /** Two calls from inside the first one, the second of them past the maximum wait. */
  const NESTED: seq<Action> := [At(10, CallEvent), At(10, CallEvent), At(12, CallEvent)]

  const RETURNS: seq<Action> := [At(12, ReturnEvent), At(12, ReturnEvent), At(13, TimerEvent)]

  lemma {:induction false} NestedState()
    ensures Run(LONGER, 10, NESTED) ==
      State(Some(2), Some(11), None, 12, true, 12, [PastMax, PastMax], 12, [10, 10, 12],
            [Invocation(10, Some(0), 1), Invocation(12, Some(2), 3)])
  {
    hide Run, Step;
    assert [] + [At(10, CallEvent)] == NESTED[..1] && NESTED[..1] + [At(10, CallEvent)] == NESTED[..2];
    assert NESTED[..2] + [At(12, CallEvent)] == NESTED;
    RunSnoc(LONGER, 10, [], At(10, CallEvent));
    RunSnoc(LONGER, 10, NESTED[..1], At(10, CallEvent));
    RunSnoc(LONGER, 10, NESTED[..2], At(12, CallEvent));
    NoActions(LONGER, 10);
    FirstCall();
    SecondCall();
    ThirdCall();
  }

  lemma {:induction false} NoActions(o: Options, clock: nat)
    ensures Run(o, clock, []) == Init(clock)
  {
  }

  lemma {:induction false} FirstCall()
    ensures Step(LONGER, Init(10), At(10, CallEvent)) ==
      State(Some(0), None, None, 10, false, 10, [PastMax], 10, [10], [Invocation(10, Some(0), 1)])
  {
  }

  lemma {:induction false} SecondCall()
    ensures Step(LONGER, State(Some(0), None, None, 10, false, 10, [PastMax], 10, [10], [Invocation(10, Some(0), 1)]),
      At(10, CallEvent))
      == State(Some(1), Some(11), Some(12), 10, false, 10, [PastMax], 10, [10, 10], [Invocation(10, Some(0), 1)])
  {
  }

  lemma {:induction false} ThirdCall()
    ensures Step(LONGER, State(Some(1), Some(11), Some(12), 10, false, 10, [PastMax], 10, [10, 10],
      [Invocation(10, Some(0), 1)]),
                 At(12, CallEvent))
      == State(Some(2), Some(11), None, 12, true, 12, [PastMax, PastMax], 12, [10, 10, 12],
               [Invocation(10, Some(0), 1), Invocation(12, Some(2), 3)])
  {
  }

  /** With a maximum wait longer than the wait, a function that calls back twice can be invoked without arguments: the
      inner call's return stops the timer and lets go of them, and the outer one's return starts it again. */
  lemma {:induction false} InvokedWithoutArgs()
    ensures LONGER.Valid() && LONGER.wait < LONGER.maxWait.value
    ensures Run(LONGER, 10, NESTED + RETURNS).invoked ==
      [Invocation(10, Some(0), 1), Invocation(12, Some(2), 3), Invocation(13, None, 3)]
  {
    hide Run, Step;
    NestedState();
    RunSnoc(LONGER, 10, NESTED, RETURNS[0]);
    RunSnoc(LONGER, 10, NESTED + [RETURNS[0]], RETURNS[1]);
    RunSnoc(LONGER, 10, NESTED + [RETURNS[0]] + [RETURNS[1]], RETURNS[2]);
    assert NESTED + [RETURNS[0]] + [RETURNS[1]] + [RETURNS[2]] == NESTED + RETURNS;
    ThreeReturns(Run(LONGER, 10, NESTED));
  }

  lemma {:induction false} ThreeReturns(s: State)
    requires s.timer.Some? && s.maxTimer.None? && s.stamp == 12 && s.trailingCall && s.stack == [PastMax, PastMax]
    ensures var s4 := Step(LONGER, s, At(12, ReturnEvent));
      var s5 := Step(LONGER, s4, At(12, ReturnEvent));
      var s6 := Step(LONGER, s5, At(13, TimerEvent));
      s6.invoked == s.invoked + [Invocation(13, None, |s.calls|)]
  {
    var s4 := Step(LONGER, s, At(12, ReturnEvent));
    assert s4 == s.(clock := 12, stack := [PastMax], timer := None, args := None);
    var s5 := Step(LONGER, s4, At(12, ReturnEvent));
    assert s5 == s4.(stack := [], timer := Some(13));
  }

  // ---------------------------------------------------------------- debounce: invocations wait for silence

  predicate Quiet(o: Options, s: State, v: Invocation) {
    0 < v.known <= |s.calls| &&
    var newest := s.calls[v.known - 1];
    v.time >= newest + o.wait || (o.leading && v.time == newest)
  }

  /** A trailing invocation comes after `wait` without calls, and any other is a leading one. */
  ghost predicate QuietInv(o: Options, s: State) {
    && (s.calls != [] ==> s.stamp == s.calls[|s.calls| - 1] && s.stamp <= s.clock)
    && (forall k :: 0 <= k < |s.invoked| ==> Quiet(o, s, s.invoked[k]))
  }

  lemma {:induction false} StepQuiet(o: Options, s: State, a: Action)
    requires o.maxWait.None? && NewestInv(o, s) && QuietInv(o, s) && Legal(s, a)
    ensures QuietInv(o, Step(o, s, a))
  {
    var s' := Step(o, s, a);
    CallsGrow(o, s, a);
    forall k | 0 <= k < |s'.invoked|
      ensures Quiet(o, s', s'.invoked[k])
    {
      assert k < |s.invoked| ==> s'.invoked[k] == s.invoked[k] && Quiet(o, s, s.invoked[k]);
    }
  }

  lemma {:induction false} CallsGrow(o: Options, s: State, a: Action)
    ensures var s' := Step(o, s, a);
      && s.calls <= s'.calls
      && s'.calls == (if a.event.CallEvent? then s.calls + [a.time] else s.calls)
  {
  }

  lemma {:induction false} DebounceWaitsForSilence(o: Options, clock: nat, actions: seq<Action>)
    requires o.maxWait.None? && LegalRun(o, clock, actions)
    ensures QuietInv(o, Run(o, clock, actions))
  {
    hide Step, Legal;
    if actions != [] {
      DebounceWaitsForSilence(o, clock, actions[..|actions| - 1]);
      InvokedWithNewest(o, clock, actions[..|actions| - 1]);
      StepQuiet(o, Run(o, clock, actions[..|actions| - 1]), actions[|actions| - 1]);
    }
  }

  /** The newest call has its invocation, exactly `wait` later, or the timer for it is pending. */
  ghost predicate AnsweredInv(o: Options, s: State) {
    && (s.timer.Some? ==> s.timer.value <= s.stamp + o.wait && s.trailingCall)
    && (s.calls != [] && s.timer.None? ==>
      exists k :: 0 <= k < |s.invoked|
        && s.invoked[k].call == Some(|s.calls| - 1) && s.invoked[k].time == s.stamp + o.wait)
  }

  lemma {:induction false} StepAnswered(o: Options, s: State, a: Action)
    requires o.maxWait.None? && o.trailing && !o.leading && Legal(s, a) && Prompt(s, a)
    requires NewestInv(o, s) && QuietInv(o, s) && AnsweredInv(o, s)
    ensures AnsweredInv(o, Step(o, s, a))
  {
    var s' := Step(o, s, a);
    assert s.invoked <= s'.invoked;
    if s.timer.Some? {
      if |s'.invoked| > |s.invoked| {
        assert a.event.TimerEvent? && a.time == s.stamp + o.wait;
        assert s'.invoked[|s.invoked|] == Invocation(a.time, s.args, |s.calls|);
      }
    } else if s.calls != [] && !a.event.CallEvent? {
      var k :| 0 <= k < |s.invoked| && s.invoked[k].call == Some(|s.calls| - 1)
        && s.invoked[k].time == s.stamp + o.wait;
      assert s'.invoked[k] == s.invoked[k];
    }
  }

  /** After a burst of calls, the debounced function is invoked with the newest arguments once `wait` has passed. */
  lemma {:induction false} DebounceAnswers(o: Options, clock: nat, actions: seq<Action>)
    requires o.maxWait.None? && o.trailing && !o.leading && LegalRun(o, clock, actions) && PromptRun(o, clock, actions)
    ensures AnsweredInv(o, Run(o, clock, actions))
  {
    hide Step, Legal, Prompt;
    if actions != [] {
      DebounceAnswers(o, clock, actions[..|actions| - 1]);
      DebounceWaitsForSilence(o, clock, actions[..|actions| - 1]);
      InvokedWithNewest(o, clock, actions[..|actions| - 1]);
      StepAnswered(o, Run(o, clock, actions[..|actions| - 1]), actions[|actions| - 1]);
    }
  }
}