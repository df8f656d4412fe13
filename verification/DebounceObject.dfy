/** The variables that a debounced function and its timers share: each method runs up to the next call of user code. */
module DebounceObject {
  import opened Wrappers
  import opened Debounce

  class Debounced {
    const options: Options
    var args: Option<nat>
    var timeout: Option<int>
    var maxTimeout: Option<int>
    var stamp: int
    var trailingCall: bool
    var lastCalled: int
    var stack: seq<Frame>
    ghost var clock: int
    ghost var calls: seq<int>
    ghost var invoked: seq<Invocation>
    ghost const start: nat
    ghost var history: seq<Action>

    /** The object is where the machine is after all that has happened. */
    ghost predicate Valid()
      reads this
    {
      View() == Run(options, start, history)
    }

    ghost function View(): State
      reads this
    {
      State(args, timeout, maxTimeout, stamp, trailingCall, lastCalled, stack, clock, calls, invoked)
    }

    constructor (options: Options, ghost now: nat)
      ensures this.options == options && View() == Init(now)
      ensures Valid() && start == now && history == []
    {
      this.options := options;
      args, timeout, maxTimeout, stamp, trailingCall, lastCalled, stack := None, None, None, 0, false, 0, [];
      clock, calls, invoked, start, history := now, [], [], now, [];
    }

    ghost method Record(a: Action)
      modifies this`history
      ensures history == old(history) + [a]
      ensures Run(options, start, history) == Step(options, Run(options, start, old(history)), a)
    {
      RunSnoc(options, start, history, a);
      history := history + [a];
    }

    method InvokeFunction(f: Frame)
      modifies this`stack, this`invoked
      ensures View() == Invoke(old(View()), f)
    {
      invoked := invoked + [Invocation(clock, args, |calls|)];
      stack := stack + [f];
    }

    method ReleaseArguments()
      modifies this`args
      ensures View() == Settle(old(View()))
    {
      if timeout.None? && maxTimeout.None? {
        args := None;
      }
    }

    method RecordCall(now: int, number: nat)
      requires number == |calls|
      modifies this`clock, this`calls, this`args, this`stamp, this`trailingCall
      ensures View() == Arrive(options, old(View()).(clock := now)) && stamp == now
    {
      clock, calls := now, calls + [now];
      args := Some(number);
      stamp := now;
      trailingCall := options.trailing && (timeout.Some? || !options.leading);
    }

    /** A call of the debounced function, with the arguments numbered `number`. */
    method Call(now: int, number: nat)
      requires Valid() && number == |calls|
      modifies this
      ensures View() == Step(options, old(View()), At(now, CallEvent))
      ensures Valid() && history == old(history) + [At(now, CallEvent)]
    {
      hide Invoke, Run;
      Record(At(now, CallEvent));
      RecordCall(now, number);
      if options.maxWait.None? {
        var leadingCall := options.leading && timeout.None?;
        if timeout.None? {
          timeout := Some(now + options.wait);
        }
        if leadingCall {
          InvokeFunction(Leading);
        }
      } else {
        var maxWait := options.maxWait.value;
        if maxTimeout.None? && !options.leading {
          lastCalled := stamp;
        }
        var remaining := maxWait - (stamp - lastCalled);
        if remaining <= 0 || remaining > maxWait {
          maxTimeout := None;
          lastCalled := stamp;
          InvokeFunction(PastMax);
        } else {
          if maxTimeout.None? {
            maxTimeout := Some(now + remaining);
          }
          if timeout.None? && options.wait != maxWait {
            timeout := Some(now + options.wait);
          }
        }
      }
    }

    /** The innermost call of the wrapped function returns. */
    method FunctionReturns(now: int)
      requires Valid() && stack != []
      modifies this
      ensures View() == Step(options, old(View()), At(now, ReturnEvent))
      ensures Valid() && history == old(history) + [At(now, ReturnEvent)]
    {
      hide Run;
      Record(At(now, ReturnEvent));
      clock := now;
      var frame := stack[|stack| - 1];
      stack := stack[..|stack| - 1];
      if frame.PastMax? {
        if timeout.Some? {
          timeout := None;
        } else if Some(options.wait) != options.maxWait {
          timeout := Some(now + options.wait);
        }
      }
      ReleaseArguments();
    }

    method TimeoutFires(now: int)
      requires Valid() && stack == [] && timeout.Some?
      modifies this
      ensures View() == Step(options, old(View()), At(now, TimerEvent))
      ensures Valid() && history == old(history) + [At(now, TimerEvent)]
    {
      hide Run;
      Record(At(now, TimerEvent));
      clock := now;
      var remaining := options.wait - (now - stamp);
      if remaining <= 0 || remaining > options.wait {
        var isCalled := trailingCall;
        timeout, maxTimeout, trailingCall := None, None, false;
        if isCalled {
          lastCalled := now;
          InvokeFunction(ByTimer);
        }
      } else {
        timeout := Some(now + remaining);
      }
    }

    method MaxTimeoutFires(now: int)
      requires Valid() && stack == [] && maxTimeout.Some?
      modifies this
      ensures View() == Step(options, old(View()), At(now, MaxTimerEvent))
      ensures Valid() && history == old(history) + [At(now, MaxTimerEvent)]
    {
      hide Run;
      Record(At(now, MaxTimerEvent));
      clock := now;
      timeout, maxTimeout, trailingCall := None, None, false;
      if options.trailing || Some(options.wait) != options.maxWait {
        lastCalled := now;
        InvokeFunction(ByTimer);
      }
    }

    method Cancel(ghost now: int)
      requires Valid()
      modifies this
      ensures View() == Step(options, old(View()), At(now, CancelEvent))
      ensures Valid() && history == old(history) + [At(now, CancelEvent)]
    {
      hide Run;
      Record(At(now, CancelEvent));
      clock := now;
      timeout, maxTimeout, trailingCall := None, None, false;
    }
  }
  /** Whatever has happened to a throttled function, its invocations are spaced out. */
  lemma {:induction false} ObjectSpaces(d: Debounced)
    requires d.Valid() && d.options.Throttle() && LegalRun(d.options, d.start, d.history)
    ensures Spaced(d.options, d.invoked)
  {
    ThrottleSpaces(d.options, d.start, d.history);
  }

  /** And whatever the options, they have the newest arguments exactly if no timer fires after those were let go. */
  lemma {:induction false} ObjectNewest(d: Debounced)
    requires d.Valid()
    ensures AllNewest(d.invoked) <==> FiresWithArgs(d.options, d.start, d.history)
  {
    NewestIff(d.options, d.start, d.history);
  }

  /** With trailing invocations and timers on time, every call to a throttled function has its answer within `wait`. */
  lemma {:induction false} ObjectAnswers(d: Debounced, i: nat)
    requires d.Valid() && d.options.Throttle() && d.options.trailing
    requires LegalRun(d.options, d.start, d.history) && PromptRun(d.options, d.start, d.history)
    requires i < |d.calls| && d.clock > d.calls[i] + d.options.wait
    ensures Served(d.options, d.View(), i)
  {
    ThrottleAnswers(d.options, d.start, d.history, i);
  }
}
