/** What the final callback is told, and what the results are. */
module AutoReports {
  import opened AsyncAuto

  /** A task that has been started reports an error. */
  ghost predicate Fails(s: State, a: Action) { a.Fail? && a.key in s.started }

  // ---------------------------------------------------------------- the first report

  /** What one step adds to the reports. */
  lemma {:induction false} StepAdds(t: Tasks, s: State, a: Action)
    ensures var s' := Step(t, s, a);
      if Fails(s, a) && s.live then
        && s'.reports == s.reports + [Report(true, s.results[a.key := a.value])]
        && s'.live
      else
        || (s'.reports == s.reports && (s'.live == s.live || (s.failing > 0 && !s'.live)))
        || (s'.reports == s.reports + [Report(false, s.results)] && s.live && !s'.live
          && (a.Return? || a.Fire?) && s'.remaining == 0)
  {
    hide SetUp, NotifyFrom;
    if a.Return? && s.mode.Setup? {
      SetUpReports(t, s, s.mode.next);
    } else if a.Return? && s.mode.Notify? {
      NotifyReports(t, s, s.mode.todo, s.mode.next);
    } else if a.Fire? && s.pending > 0 {
      NotifyReports(t, s.(pending := s.pending - 1, remaining := s.remaining - 1), s.listeners, 0);
    }
  }

  lemma {:induction false} StepFailing(t: Tasks, s: State, a: Action)
    requires s.failing > 0 ==> s.reports != []
    ensures Step(t, s, a).failing > 0 ==> Step(t, s, a).reports != []
  {
    hide SetUp, NotifyFrom;
    if a.Return? && s.mode.Setup? {
      SetUpReports(t, s, s.mode.next);
    } else if a.Return? && s.mode.Notify? {
      NotifyReports(t, s, s.mode.todo, s.mode.next);
    } else if a.Fire? && s.pending > 0 {
      NotifyReports(t, s.(pending := s.pending - 1, remaining := s.remaining - 1), s.listeners, 0);
    }
  }

  /** As long as the final callback has not been called, it can be. */
  lemma {:induction false} LiveBefore(t: Tasks, actions: seq<Action>)
    ensures var s := Run(t, actions); s.reports == [] ==> s.live && s.failing == 0
  {
    hide Step;
    if actions == [] {
      SetUpReports(t, State(map[], |t.keys|, [Completion], true, 0, Idle, 0, [], [], false), 0);
    } else {
      var n := |actions| - 1;
      LiveBefore(t, actions[..n]);
      StepAdds(t, Run(t, actions[..n]), actions[n]);
      StepFailing(t, Run(t, actions[..n]), actions[n]);
    }
  }

  /** The first report comes from the `i`-th action. */
  ghost predicate FirstBy(t: Tasks, actions: seq<Action>, i: nat) {
    && i < |actions| && Run(t, actions).reports != [] && Run(t, actions[..i]).reports == []
    && var s, a, first := Run(t, actions[..i]), actions[i], Run(t, actions).reports[0];
    && (Fails(s, a) ==> first == Report(true, s.results[a.key := a.value]))
    && (!Fails(s, a) ==> first == Report(false, s.results) && (a.Return? || a.Fire?))
    && (!Fails(s, a) ==> Run(t, actions[..i + 1]).remaining == 0)
  }

  /** The first report comes from a task's error, and then it is a failure and has the value that came with it; or
      from the last result, and then it is none and has the results so far; or there are no tasks. */
  lemma {:induction false} FirstReport(t: Tasks, actions: seq<Action>)
    requires Run(t, actions).reports != []
    ensures if t.keys == [] then Run(t, actions).reports[0] == Report(false, map[])
            else exists i: nat :: FirstBy(t, actions, i)
  {
    hide Step, Fails;
    if actions == [] {
      SetUpReports(t, State(map[], |t.keys|, [Completion], true, 0, Idle, 0, [], [], false), 0);
    } else {
      var n := |actions| - 1;
      var s := Run(t, actions[..n]);
      StepAdds(t, s, actions[n]);
      if s.reports != [] {
        FirstReport(t, actions[..n]);
        if t.keys != [] {
          var i: nat :| FirstBy(t, actions[..n], i);
          assert actions[..n][..i] == actions[..i] && actions[..n][..i + 1] == actions[..i + 1];
          assert FirstBy(t, actions, i);
        }
      } else {
        LiveBefore(t, actions[..n]);
        NotEmpty(t, actions[..n]);
        assert actions[..n + 1] == actions;
        assert FirstBy(t, actions, n);
      }
    }
  }

  lemma {:induction false} NotEmpty(t: Tasks, actions: seq<Action>)
    requires Run(t, actions).reports == []
    ensures t.keys != []
  {
    hide Step;
    if actions != [] {
      StepAdds(t, Run(t, actions[..|actions| - 1]), actions[|actions| - 1]);
      NotEmpty(t, actions[..|actions| - 1]);
    }
  }

  lemma {:induction false} ReportsStay(t: Tasks, actions: seq<Action>, i: nat)
    requires i <= |actions|
    ensures Run(t, actions[..i]).reports <= Run(t, actions).reports
  {
    hide Step;
    var n := |actions| - 1;
    if i <= n {
      ReportsStay(t, actions[..n], i);
      assert actions[..n][..i] == actions[..i];
      StepAdds(t, Run(t, actions[..n]), actions[n]);
    } else {
      assert actions[..i] == actions;
    }
  }

  /** An error of a started task before any report makes the first report, which is a failure with its value. */
  lemma {:induction false} FailureIsReported(t: Tasks, actions: seq<Action>, i: nat)
    requires i < |actions| && Fails(Run(t, actions[..i]), actions[i]) && Run(t, actions[..i]).reports == []
    ensures Run(t, actions).reports != []
    ensures Run(t, actions).reports[0]
      == Report(true, Run(t, actions[..i]).results[actions[i].key := actions[i].value])
  {
    hide Step;
    var s := Run(t, actions[..i]);
    LiveBefore(t, actions[..i]);
    StepAdds(t, s, actions[i]);
    assert actions[..i + 1][..i] == actions[..i];
    ReportsStay(t, actions, i + 1);
  }

  // ---------------------------------------------------------------- the results

  /** A started task's callback is called with this value by the `i`-th action. */
  ghost predicate Succeeds(t: Tasks, actions: seq<Action>, i: nat, k: Key) {
    i < |actions| && actions[i].Succeed? && actions[i].key == k && k in Run(t, actions[..i]).started
  }

  lemma {:induction false} StepResults(t: Tasks, s: State, a: Action)
    ensures Step(t, s, a).results == if a.Succeed? && a.key in s.started then s.results[a.key := a.value] else s.results
  {
    hide SetUp, NotifyFrom;
    if a.Return? && s.mode.Setup? {
      SetUpReports(t, s, s.mode.next);
    } else if a.Return? && s.mode.Notify? {
      NotifyReports(t, s, s.mode.todo, s.mode.next);
    } else if a.Fire? && s.pending > 0 {
      NotifyReports(t, s.(pending := s.pending - 1, remaining := s.remaining - 1), s.listeners, 0);
    }
  }

  ghost predicate Newest(t: Tasks, actions: seq<Action>, i: nat, k: Key) {
    Succeeds(t, actions, i, k) && forall j: nat :: i < j < |actions| ==> !Succeeds(t, actions, j, k)
  }

  /** A key has a result exactly if its task has called back with one. */
  lemma {:induction false} HasResultIff(t: Tasks, actions: seq<Action>, k: Key)
    ensures k in Run(t, actions).results <==> exists i: nat :: Succeeds(t, actions, i, k)
  {
    hide Step;
    if actions == [] {
      SetUpReports(t, State(map[], |t.keys|, [Completion], true, 0, Idle, 0, [], [], false), 0);
    } else {
      var n := |actions| - 1;
      HasResultIff(t, actions[..n], k);
      StepResults(t, Run(t, actions[..n]), actions[n]);
      SucceedsBefore(t, actions, k);
      if i: nat :| Succeeds(t, actions[..n], i, k) {
        assert Succeeds(t, actions, i, k);
      }
      assert Succeeds(t, actions, n, k)
        <==> actions[n].Succeed? && actions[n].key == k && k in Run(t, actions[..n]).started;
    }
  }

  /** And it is the newest one. */
  lemma {:induction false} ResultIsNewest(t: Tasks, actions: seq<Action>, i: nat, k: Key)
    requires Newest(t, actions, i, k)
    ensures k in Run(t, actions).results && Run(t, actions).results[k] == actions[i].value
  {
    hide Step;
    var n := |actions| - 1;
    StepResults(t, Run(t, actions[..n]), actions[n]);
    if i < n {
      SucceedsBefore(t, actions, k);
      assert !Succeeds(t, actions, n, k);
      forall j: nat | i < j < n
        ensures !Succeeds(t, actions[..n], j, k)
      {
        assert !Succeeds(t, actions, j, k);
      }
      assert Succeeds(t, actions[..n], i, k);
      ResultIsNewest(t, actions[..n], i, k);
    }
  }

  lemma {:induction false} SucceedsBefore(t: Tasks, actions: seq<Action>, k: Key)
    requires actions != []
    ensures forall i: nat :: i < |actions| - 1 ==>
      (Succeeds(t, actions, i, k) <==> Succeeds(t, actions[..|actions| - 1], i, k))
  {
    forall i: nat | i < |actions| - 1
      ensures Succeeds(t, actions, i, k) <==> Succeeds(t, actions[..|actions| - 1], i, k)
    {
      assert actions[..|actions| - 1][..i] == actions[..i];
    }
  }
}
