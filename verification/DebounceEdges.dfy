/** At which calls and timers a debounced or throttled function is invoked. */
module DebounceEdges {
  import opened Wrappers
  import opened Debounce

  // ---------------------------------------------------------------- calls

  function Last(invoked: seq<Invocation>): int { if invoked == [] then 0 else invoked[|invoked| - 1].time }

  /** A call is invoked at once: with no timer pending at the leading edge, or past the maximum wait. */
  predicate AtOnce(o: Options, s: State, now: int) {
    match o.maxWait
    case None => o.leading && s.timer.None?
    case Some(m) =>
      if s.maxTimer.Some? then now >= s.maxTimer.value
      else if o.leading then now >= Last(s.invoked) + m
      else m == 0
  }

  ghost predicate EdgeInv(o: Options, s: State) {
    && 0 <= s.lastCalled <= s.clock
    && (s.maxTimer.Some? ==> o.maxWait.Some? && s.maxTimer.value == s.lastCalled + o.maxWait.value)
    && (o.leading && o.maxWait.Some? ==> s.lastCalled == Last(s.invoked))
    && (s.calls != [] ==> s.stamp == s.calls[|s.calls| - 1] && s.stamp <= s.clock)
    && (s.timer.Some? || s.maxTimer.Some? || s.trailingCall || s.stack != [] ==> s.calls != [])
  }

  lemma {:induction false} StepEdge(o: Options, s: State, a: Action)
    requires EdgeInv(o, s) && a.time >= s.clock
    ensures EdgeInv(o, Step(o, s, a))
  {
    hide Call, EdgeInv;
    match a.event
    case CallEvent => CallKeeps(o, s, a.time);
    case TimerEvent => TimersKeep(o, s, a);
    case MaxTimerEvent => TimersKeep(o, s, a);
    case _ => OtherKeeps(o, s, a);
  }

  lemma {:induction false} CallKeeps(o: Options, s: State, now: int)
    requires EdgeInv(o, s) && now >= s.clock
    ensures EdgeInv(o, Call(o, s.(clock := now)))
  {
  }

  lemma {:induction false} OtherKeeps(o: Options, s: State, a: Action)
    requires EdgeInv(o, s) && a.time >= s.clock && (a.event.ReturnEvent? || a.event.CancelEvent?)
    ensures EdgeInv(o, Step(o, s, a))
  {
    hide Call, Delayed, MaxDelayed;
  }

  lemma {:induction false} TimersKeep(o: Options, s: State, a: Action)
    requires EdgeInv(o, s) && a.time >= s.clock && (a.event.TimerEvent? || a.event.MaxTimerEvent?)
    ensures EdgeInv(o, Step(o, s, a))
  {
    hide Call, Leave;
  }

  lemma {:induction false} InitEdge(o: Options, clock: nat)
    ensures EdgeInv(o, Init(clock))
  {
  }

  lemma {:induction false} RunEdge(o: Options, clock: nat, actions: seq<Action>)
    requires LegalRun(o, clock, actions)
    ensures EdgeInv(o, Run(o, clock, actions))
  {
    hide Step, EdgeInv;
    if actions == [] {
      InitEdge(o, clock);
    } else {
      var n := |actions| - 1;
      RunEdge(o, clock, actions[..n]);
      StepEdge(o, Run(o, clock, actions[..n]), actions[n]);
    }
  }

  /** In every run, a call is invoked at once, with its own arguments, exactly under this condition; if it is not, and
      later calls are as well to be served, a timer is pending. */
  lemma {:induction false} CallInvokesIff(o: Options, clock: nat, actions: seq<Action>, now: int)
    requires LegalRun(o, clock, actions) && now >= Run(o, clock, actions).clock
    ensures var s := Run(o, clock, actions);
      var s' := Step(o, s, At(now, CallEvent));
      && s'.invoked == s.invoked + (if AtOnce(o, s, now) then [Invocation(now, Some(|s.calls|), |s.calls| + 1)] else [])
      && (o.maxWait.None? ==> s'.timer == if s.timer.Some? then s.timer else Some(now + o.wait))
      && (o.maxWait.Some? && !AtOnce(o, s, now) ==>
        && s'.maxTimer.Some? && now < s'.maxTimer.value <= now + o.maxWait.value
        && (!o.Throttle() ==> s'.timer == if s.timer.Some? then s.timer else Some(now + o.wait)))
  {
    RunEdge(o, clock, actions);
    var s := Run(o, clock, actions);
    CallEdge(o, s, now);
    assert s.invoked + [] == s.invoked;
  }

  lemma {:induction false} CallEdge(o: Options, s: State, now: int)
    requires EdgeInv(o, s) && now >= s.clock
    ensures var s' := Step(o, s, At(now, CallEvent));
      && s'.invoked == (if AtOnce(o, s, now) then s.invoked + [Invocation(now, Some(|s.calls|), |s.calls| + 1)]
                        else s.invoked)
      && (o.maxWait.None? ==> s'.timer == if s.timer.Some? then s.timer else Some(now + o.wait))
      && (o.maxWait.Some? && !AtOnce(o, s, now) ==>
        && s'.maxTimer.Some? && now < s'.maxTimer.value <= now + o.maxWait.value
        && (!o.Throttle() ==> s'.timer == if s.timer.Some? then s.timer else Some(now + o.wait)))
  {
  }

  // ---------------------------------------------------------------- timers

  /** The timer fires when the newest call is `wait` old. */
  predicate Expires(o: Options, s: State, a: Action) {
    a.event.TimerEvent? && s.stack == [] && s.timer.Some? && s.calls != []
      && a.time >= s.calls[|s.calls| - 1] + o.wait
  }

  /** The newest call is still to be invoked at the trailing edge: it came while the timer was pending, or there is no
      leading edge; and since then nobody has cancelled and no timer has expired. */
  ghost predicate Owed(o: Options, clock: nat, actions: seq<Action>) {
    actions != [] && (
      var n := |actions| - 1;
      var s := Run(o, clock, actions[..n]);
      match actions[n].event
      case CallEvent => o.trailing && (s.timer.Some? || !o.leading)
      case ReturnEvent => Owed(o, clock, actions[..n])
      case TimerEvent => Owed(o, clock, actions[..n]) && !Expires(o, s, actions[n])
      case MaxTimerEvent => Owed(o, clock, actions[..n]) && (s.stack != [] || s.maxTimer.None?)
      case CancelEvent => false)
  }

  lemma {:induction false} StepOwed(o: Options, s: State, a: Action)
    requires EdgeInv(o, s) && a.time >= s.clock
    ensures Step(o, s, a).trailingCall <==> match a.event
      case CallEvent => o.trailing && (s.timer.Some? || !o.leading)
      case ReturnEvent => s.trailingCall
      case TimerEvent => s.trailingCall && !Expires(o, s, a)
      case MaxTimerEvent => s.trailingCall && (s.stack != [] || s.maxTimer.None?)
      case CancelEvent => false
  {
  }

  lemma {:induction false} RunOwed(o: Options, clock: nat, actions: seq<Action>)
    requires LegalRun(o, clock, actions)
    ensures Run(o, clock, actions).trailingCall <==> Owed(o, clock, actions)
  {
    hide Step, EdgeInv, Expires;
    if actions != [] {
      var n := |actions| - 1;
      RunOwed(o, clock, actions[..n]);
      RunEdge(o, clock, actions[..n]);
      StepOwed(o, Run(o, clock, actions[..n]), actions[n]);
    }
  }

  /** In every run, a timer invokes the function exactly if it expires and the newest call is still owed, the maximum
      timer also if there is a trailing edge or a longer maximum wait, and nothing else but calls does. */
  lemma {:induction false} TimerInvokesIff(o: Options, clock: nat, actions: seq<Action>, a: Action)
    requires LegalRun(o, clock, actions) && a.time >= Run(o, clock, actions).clock && !a.event.CallEvent?
    ensures var s := Run(o, clock, actions);
      var invokes := match a.event
        case TimerEvent => Expires(o, s, a) && Owed(o, clock, actions)
        case MaxTimerEvent => s.stack == [] && s.maxTimer.Some? && (o.trailing || !o.Throttle())
        case _ => false;
      Step(o, s, a).invoked == s.invoked + if invokes then [Invocation(a.time, s.args, |s.calls|)] else []
  {
    RunEdge(o, clock, actions);
    RunOwed(o, clock, actions);
    var s := Run(o, clock, actions);
    TimerEdge(o, s, a);
    assert s.invoked + [] == s.invoked;
  }

  lemma {:induction false} TimerEdge(o: Options, s: State, a: Action)
    requires EdgeInv(o, s) && a.time >= s.clock && !a.event.CallEvent?
    ensures var invokes := match a.event
        case TimerEvent => Expires(o, s, a) && s.trailingCall
        case MaxTimerEvent => s.stack == [] && s.maxTimer.Some? && (o.trailing || !o.Throttle())
        case _ => false;
      Step(o, s, a).invoked ==
        if invokes then s.invoked + [Invocation(a.time, s.args, |s.calls|)] else s.invoked
  {
  }

  /** After cancelling, nothing is invoked before the next call. */
  lemma {:induction false} CancelSilences(o: Options, clock: nat, actions: seq<Action>, now: int, later: seq<Action>)
    requires forall i :: 0 <= i < |later| ==> !later[i].event.CallEvent?
    ensures var s := Run(o, clock, actions + [At(now, CancelEvent)] + later);
      s.invoked == Run(o, clock, actions).invoked && !s.trailingCall && s.maxTimer.None?
    decreases |later|
  {
    hide Step;
    if later == [] {
      RunSnoc(o, clock, actions, At(now, CancelEvent));
      assert actions + [At(now, CancelEvent)] + later == actions + [At(now, CancelEvent)];
      StepSilent(o, Run(o, clock, actions), At(now, CancelEvent));
    } else {
      var n := |later| - 1;
      var before := actions + [At(now, CancelEvent)] + later[..n];
      CancelSilences(o, clock, actions, now, later[..n]);
      RunSnoc(o, clock, before, later[n]);
      assert actions + [At(now, CancelEvent)] + later == before + [later[n]];
      StepSilent(o, Run(o, clock, before), later[n]);
    }
  }

  lemma {:induction false} StepSilent(o: Options, s: State, a: Action)
    requires !a.event.CallEvent? && (a.event.CancelEvent? || (!s.trailingCall && s.maxTimer.None?))
    ensures var s' := Step(o, s, a); s'.invoked == s.invoked && !s'.trailingCall && s'.maxTimer.None?
  {
  }

  // ---------------------------------------------------------------- the leading edge of a burst

  ghost predicate BurstInv(o: Options, s: State) {
    && EdgeInv(o, s) && s.maxTimer.None? && (forall k :: 0 <= k < |s.stack| ==> !s.stack[k].PastMax?)
    && (s.calls != [] ==>
      if s.timer.Some? then s.timer.value <= s.stamp + o.wait else s.stamp + o.wait <= s.clock)
  }

  lemma {:induction false} StepBurst(o: Options, s: State, a: Action)
    requires o.maxWait.None? && BurstInv(o, s) && Legal(s, a) && !a.event.CancelEvent?
    ensures BurstInv(o, Step(o, s, a))
  {
    StepEdge(o, s, a);
    StepTimes(o, s, a);
  }

  lemma {:induction false} StepTimes(o: Options, s: State, a: Action)
    requires o.maxWait.None? && BurstInv(o, s) && Legal(s, a) && !a.event.CancelEvent?
    ensures var s' := Step(o, s, a);
      && s'.maxTimer.None? && (forall k :: 0 <= k < |s'.stack| ==> !s'.stack[k].PastMax?)
      && (s'.calls != [] ==>
        if s'.timer.Some? then s'.timer.value <= s'.stamp + o.wait else s'.stamp + o.wait <= s'.clock)
  {
  }

  lemma {:induction false} RunBurst(o: Options, clock: nat, actions: seq<Action>)
    requires o.maxWait.None? && LegalRun(o, clock, actions) && PromptRun(o, clock, actions)
    ensures BurstInv(o, Run(o, clock, actions))
  {
    hide Step, EdgeInv;
    if actions == [] {
      InitEdge(o, clock);
    } else {
      var n := |actions| - 1;
      RunBurst(o, clock, actions[..n]);
      StepBurst(o, Run(o, clock, actions[..n]), actions[n]);
    }
  }

  /** With a leading edge, no maximum wait, timers on time and no cancelling, a call more than `wait` after the one
      before is invoked at once, and one less than `wait` after it is not. */
  lemma {:induction false} BurstStarts(o: Options, clock: nat, actions: seq<Action>, now: int)
    requires o.leading && o.maxWait.None? && LegalRun(o, clock, actions) && PromptRun(o, clock, actions)
    requires var s := Run(o, clock, actions); Legal(s, At(now, CallEvent)) && Prompt(s, At(now, CallEvent))
    ensures var s := Run(o, clock, actions);
      var s' := Step(o, s, At(now, CallEvent));
      var first := s.calls == [] || now > s.calls[|s.calls| - 1] + o.wait;
      && (first ==> s'.invoked == s.invoked + [Invocation(now, Some(|s.calls|), |s.calls| + 1)])
      && (!first && now < s.calls[|s.calls| - 1] + o.wait ==> s'.invoked == s.invoked)
  {
    RunBurst(o, clock, actions);
    CallInvokesIff(o, clock, actions, now);
  }

  // ---------------------------------------------------------------- no trailing edge

  /** Without a trailing edge, and without a longer maximum wait, the function is invoked only inside a call. */
  lemma {:induction false} OnlyInCalls(o: Options, clock: nat, actions: seq<Action>)
    requires !o.trailing && (o.maxWait.None? || o.Throttle())
    ensures var s := Run(o, clock, actions);
      && !s.trailingCall && (o.maxWait.None? ==> s.maxTimer.None?)
      && forall k :: 0 <= k < |s.invoked| ==>
        0 < s.invoked[k].known <= |s.calls| && s.invoked[k].time == s.calls[s.invoked[k].known - 1]
  {
    hide Step;
    if actions != [] {
      var n := |actions| - 1;
      OnlyInCalls(o, clock, actions[..n]);
      StepOnlyInCalls(o, Run(o, clock, actions[..n]), actions[n]);
      CallsGrow(o, Run(o, clock, actions[..n]), actions[n]);
    }
  }

  lemma {:induction false} StepOnlyInCalls(o: Options, s: State, a: Action)
    requires !o.trailing && (o.maxWait.None? || o.Throttle())
    requires !s.trailingCall && (o.maxWait.None? ==> s.maxTimer.None?)
    ensures var s' := Step(o, s, a);
      && !s'.trailingCall && (o.maxWait.None? ==> s'.maxTimer.None?)
      && (s'.invoked == s.invoked ||
        (a.event.CallEvent? && s'.invoked == s.invoked + [Invocation(a.time, Some(|s.calls|), |s.calls| + 1)]))
  {
  }
}
