/** What holds of the client core over every run, for any number of callers. */
module ClientCoreTheorems {
  import opened Errors
  import opened ClientCore
  import opened ClientCoreSafety
  import opened ClientCoreRegistry

  ghost predicate Inv(s: State) {
    Counted(s) && Phased(s) && Starting(s) && Drained(s) && DrainAwake(s) && CallersAwake(s) && Keyed(s) && Filed(s)
  }

  lemma InvInitially()
    ensures Inv(INITIAL)
  {
    assert Contributors(INITIAL.threads, InFlight) == {};
    assert Contributors(INITIAL.threads, Owned) == {};
  }

  lemma InvKept(s: State, a: Action)
    requires Inv(s) && Enabled(s, a)
    ensures Inv(Apply(s, a))
  {
    hide Counted, Phased, Starting, Drained, DrainAwake, CallersAwake, Keyed, Filed, Apply, Enabled;
    CountedKept(s, a);
    PhasedKept(s, a);
    StartingKept(s, a);
    DrainedKept(s, a);
    DrainAwakeKept(s, a);
    CallersAwakeKept(s, a);
    KeyedKept(s, a);
    FiledKept(s, a);
  }

  lemma {:induction false} InvAfter(s: State, run: seq<Action>)
    requires Inv(s) && Legal(s, run)
    ensures Inv(After(s, run))
    decreases |run|
  {
    hide Inv;
    if run != [] {
      InvKept(s, run[0]);
      InvAfter(Apply(s, run[0]), run[1..]);
    }
  }

  lemma ReachableInv(s: State)
    requires Reachable(s)
    ensures Inv(s)
  {
    hide Inv;
    var run :| Legal(INITIAL, run) && After(INITIAL, run) == s;
    InvInitially();
    InvAfter(INITIAL, run);
  }

  // Drain safety.

  lemma PastKept(s: State, a: Action, c: Counter)
    requires Enabled(s, a) && Phased(s) && Past(s.closer, c)
    ensures Past(Apply(s, a).closer, c)
  {
    hide Clean, CloseStep;
    Kinds(s, a);
    if a.Cleanup? { CleanKeepsPast(s, a.fails, c); }
    else if a.Go? && CloseCall(s.threads[a.t].pc) { CloseFrame(s, a.t); }
  }

  lemma CleanKeepsPast(s: State, fails: bool, c: Counter)
    requires CanClean(s) && Past(s.closer, c)
    ensures Past(Clean(s, fails).closer, c)
  {
  }

  lemma {:induction false} PastForever(s: State, run: seq<Action>, c: Counter)
    requires Inv(s) && Legal(s, run) && Past(s.closer, c)
    ensures Past(After(s, run).closer, c)
    decreases |run|
  {
    hide Past, Apply, Enabled;
    if run != [] {
      InvKept(s, run[0]);
      PastKept(s, run[0], c);
      PastForever(Apply(s, run[0]), run[1..], c);
    }
  }

  /** Once the cleanup has drained both counters, no operation guard and no owned
      task is live, and none becomes live in any continuation. */
  lemma DrainSafety(s: State, run: seq<Action>)
    requires Reachable(s) && Legal(s, run) && Past(s.closer, Owned)
    ensures forall t <- After(s, run).threads :: After(s, run).threads[t].guards == {}
  {
    hide Legal, After, Past;
    ReachableInv(s);
    InvAfter(s, run);
    PastForever(s, run, Owned);
    var s' := After(s, run);
    assert Past(s'.closer, InFlight) by { PastBoth(s'.closer); }
    assert Unheld(s', InFlight) && Unheld(s', Owned);
    forall t | t in s'.threads ensures s'.threads[t].guards == {} {
      NoGuards(s'.threads[t].guards);
    }
  }

  lemma NoGuards(guards: set<Counter>)
    requires InFlight !in guards && Owned !in guards
    ensures guards == {}
  {
    assert forall c <- guards :: c == InFlight || c == Owned;
  }

  lemma PastBoth(closer: Closer)
    requires Past(closer, Owned)
    ensures Past(closer, InFlight)
  {
  }

  // No lost wakeups.

  /** A parked drain waiter can move as soon as the counter is zero and no
      decrementer is still about to notify; a parked close caller can move as
      soon as the report has been announced; and a caller that holds any guard
      cannot miss Closing, because Closed is out of reach until it lets go. */
  lemma NoLostWakeups(s: State)
    requires Reachable(s)
    ensures s.closer.Parked? && DrainOf(s, s.closer.c).count == 0 && !NotifyPending(s, s.closer.c) ==> CanClean(s)
    ensures s.closer.Finished? ==> forall t <- s.threads :: s.threads[t].pc.ReportParked? ==> CanGo(s, s.threads[t].pc)
    ensures forall t <- s.threads :: s.threads[t].guards != {} ==> !s.lifecycle.Closed?
    ensures !s.lifecycle.Ready? && !ClosingPending(s) ==>
      forall t <- s.threads :: s.threads[t].guards != {} && s.threads[t].pc.LifeParked? && s.threads[t].pc.want.Closing?
                               ==> CanGo(s, s.threads[t].pc)
  {
    ReachableInv(s);
    hide Counted, Keyed, Filed;
    forall t | t in s.threads
      ensures CallerAwake(s, s.threads[t].pc)
      ensures s.threads[t].guards != {} ==> !s.lifecycle.Closed?
    {
      if s.lifecycle.Closed? {
        assert Past(s.closer, InFlight) && Past(s.closer, Owned);
        assert Unheld(s, InFlight) && Unheld(s, Owned);
        NoGuards(s.threads[t].guards);
      }
    }
  }

  // Conservation.

  /** Every published key is, exactly once, unregistered, handed to
      `close_resource`, waiting in the cleanup, or still registered; hand-over
      follows publication order and precedes the single `umount`. */
  lemma Conservation(s: State)
    requires Reachable(s)
    ensures Distinct(s.history.published)
    ensures s.history.handed + Rest(s.closer) + s.resources == Keep(s.history.published, s.history.removed)
    ensures forall k :: k in Keep(s.history.published, s.history.removed) <==>
                        k in s.history.published && k !in s.history.removed
    ensures Distinct(s.history.handed + Rest(s.closer) + s.resources)
    ensures s.history.umounts <= 1
    ensures s.history.umounts == 1 ==> s.history.handed == Keep(s.history.published, s.history.removed)
    ensures s.lifecycle.Closed? ==> s.history.umounts == 1
  {
    ReachableInv(s);
    hide Counted, Drained, DrainAwake, CallersAwake, Filed, CallerKeyed, CallerInPhase;
    KeepElements(s.history.published, s.history.removed);
  }

  lemma FrozenStep(s: State, a: Action)
    requires Inv(s) && Enabled(s, a)
    ensures Taken(s.closer) ==> Taken(Apply(s, a).closer) && Apply(s, a).history.published == s.history.published
    ensures s.report.Some? ==> Apply(s, a).report == s.report
  {
    hide Counted, Drained, DrainAwake, CallersAwake, Filed, Conserved, Fresh;
    hide KeyStep, CloseStep, LifeStep, AdmissionStep, Clean;
    Kinds(s, a);
    if a.Cleanup? { CleanFrozen(s, a.fails); }
    else if a.Go? && Keying(s.threads[a.t].pc) {
      assert CallerKeyed(s, a.t, s.threads[a.t].pc);
      KeyFrozen(s, a.t);
    } else {
      KeyFrames(s, a);
      if a.Go? && CloseCall(s.threads[a.t].pc) { CloseFrozen(s, a.t); }
    }
  }

  lemma CleanFrozen(s: State, fails: bool)
    requires CanClean(s) && (s.report.Some? ==> s.closer.NotifyReport? || s.closer.Finished?)
    ensures Taken(s.closer) ==> Taken(Clean(s, fails).closer)
    ensures Clean(s, fails).history.published == s.history.published
    ensures s.report.Some? ==> Clean(s, fails).report == s.report
  {
  }

  lemma KeyFrozen(s: State, t: Tid)
    requires t in s.threads && Keying(s.threads[t].pc)
    ensures !s.threads[t].pc.PublishPush? ==> KeyStep(s, t).history.published == s.history.published
    ensures KeyStep(s, t).closer == s.closer && KeyStep(s, t).report == s.report
  {
  }

  lemma CloseFrozen(s: State, t: Tid)
    requires t in s.threads && CloseCall(s.threads[t].pc)
    ensures CloseStep(s, t).report == s.report
  {
  }

  lemma {:induction false} FrozenFrom(s: State, run: seq<Action>)
    requires Inv(s) && Legal(s, run)
    ensures Taken(s.closer) ==> After(s, run).history.published == s.history.published
    ensures s.report.Some? ==> After(s, run).report == s.report
    ensures s.report.Some? ==> forall t <- After(s, run).threads ::
      After(s, run).threads[t].pc.Answered? ==> After(s, run).threads[t].pc.report == s.report.value
    decreases |run|
  {
    if run == [] {
      forall t | t in s.threads ensures CallerInPhase(s, s.threads[t].pc) { }
    } else {
      hide Inv, Apply, Enabled, Taken;
      InvKept(s, run[0]);
      FrozenStep(s, run[0]);
      FrozenFrom(Apply(s, run[0]), run[1..]);
    }
  }

  /** Nothing is published once the registry has been taken, and the report,
      once there, is the one every close caller returns, now and later. */
  lemma Frozen(s: State, run: seq<Action>)
    requires Reachable(s) && Legal(s, run)
    ensures Taken(s.closer) ==> After(s, run).history.published == s.history.published
    ensures s.report.Some? ==> After(s, run).report == s.report
    ensures s.report.Some? ==> forall t <- After(s, run).threads ::
      After(s, run).threads[t].pc.Answered? ==> After(s, run).threads[t].pc.report == s.report.value
  {
    hide Reachable, Inv;
    ReachableInv(s);
    FrozenFrom(s, run);
  }

  lemma SameReport(s: State, run: seq<Action>)
    requires Reachable(s) && Legal(s, run)
    ensures forall t <- s.threads, u <- After(s, run).threads ::
      s.threads[t].pc.Answered? && After(s, run).threads[u].pc.Answered? ==>
      s.threads[t].pc.report == After(s, run).threads[u].pc.report
  {
    ReachableInv(s);
    FrozenFrom(s, run);
    forall t | t in s.threads ensures CallerInPhase(s, s.threads[t].pc) { }
  }

  // The two registries.

  /** Registered adapter keys are in the file map, and a closed client has
      neither a registered key nor an open file. */
  lemma RegistriesAgree(s: State)
    requires Reachable(s)
    ensures forall k <- s.resources :: k in s.history.bare || k in s.files
    ensures s.lifecycle.Closed? ==> s.resources == [] && s.files == {}
  {
    ReachableInv(s);
    hide Counted, DrainAwake, CallersAwake, CallerKeyed, CallerInPhase, Distinct, Keep;
    if s.lifecycle.Closed? {
      assert Past(s.closer, Owned) && Unheld(s, Owned);
      forall t, k | t in s.threads ensures !Minds(s.threads[t].pc, k) {
        assert CallerFiled(s, s.threads[t]);
      }
      assert forall k: Key :: !Minded(s, k);
    }
  }

  // Two runs that show the limits.

  lemma ReachableStep(s: State, a: Action)
    requires Reachable(s) && Enabled(s, a)
    ensures Reachable(Apply(s, a))
  {
    var run :| Legal(INITIAL, run) && After(INITIAL, run) == s;
    AfterAppend(INITIAL, run, a);
  }

  lemma {:induction false} AfterAppend(s: State, run: seq<Action>, a: Action)
    requires Legal(s, run) && Enabled(After(s, run), a)
    ensures Legal(s, run + [a]) && After(s, run + [a]) == Apply(After(s, run), a)
    decreases |run|
  {
    if run == [] {
      assert ([a])[1..] == [];
    } else {
      AfterAppend(Apply(s, run[0]), run[1..], a);
      assert (run + [a])[1..] == run[1..] + [a];
    }
  }

  lemma InitialReachable()
    ensures Reachable(INITIAL)
  {
    assert Legal(INITIAL, []) && After(INITIAL, []) == INITIAL;
  }

  lemma CloseFrom(s: State, t: Tid) returns (s': State)
    requires Reachable(s) && t !in s.threads && !s.started
    ensures Reachable(s')
    ensures s' == s.(started := true, lifecycle := Closing, lifeGen := s.lifeGen + 1, closer := Test(InFlight),
                     threads := s.threads[t := Thread({}, ReportArm)])
  {
    hide Legal, After, Reachable;
    ReachableStep(s, Spawn(t));
    var s1 := Apply(s, Spawn(t));
    ReachableStep(s1, Enter(t, Close));
    var s2 := Apply(s1, Enter(t, Close));
    ReachableStep(s2, Go(t));
    var s3 := Apply(s2, Go(t));
    s' := AnnounceFrom(s3, t);
  }

  lemma AnnounceFrom(s: State, t: Tid) returns (s': State)
    requires Reachable(s) && t in s.threads && s.threads[t] == Thread({}, StoreClosing)
    ensures Reachable(s')
    ensures s' == s.(lifecycle := Closing, lifeGen := s.lifeGen + 1, closer := Test(InFlight),
                     threads := s.threads[t := Thread({}, ReportArm)])
  {
    hide Legal, After, Reachable;
    ReachableStep(s, Go(t));
    var s1 := Apply(s, Go(t));
    ReachableStep(s1, Go(t));
    var s2 := Apply(s1, Go(t));
    ReachableStep(s2, Go(t));
    s' := Apply(s2, Go(t));
  }

  lemma DrainFrom(s: State) returns (s': State)
    requires Reachable(s) && s.closer == Test(InFlight) && s.inFlight.count == 0 && s.owned.count == 0
    ensures Reachable(s') && s' == s.(closer := Take)
  {
    hide Legal, After, Reachable;
    ReachableStep(s, Cleanup(false));
    var s1 := Apply(s, Cleanup(false));
    ReachableStep(s1, Cleanup(false));
    var s2 := Apply(s1, Cleanup(false));
    s' := s2;
  }

  lemma FinishFrom(s: State) returns (s': State)
    requires Reachable(s) && s.closer == Take && s.registry.None? && s.resources == []
    ensures Reachable(s') && s'.closer.Finished? && s'.lifecycle.Closed? && s'.threads == s.threads
  {
    hide Legal, After, Reachable;
    ReachableStep(s, Cleanup(false));
    var s1 := Apply(s, Cleanup(false));
    ReachableStep(s1, Cleanup(false));
    var s2 := Apply(s1, Cleanup(false));
    ReachableStep(s2, Cleanup(false));
    var s3 := Apply(s2, Cleanup(false));
    ReachableStep(s3, Cleanup(false));
    var s4 := Apply(s3, Cleanup(false));
    ReachableStep(s4, Cleanup(false));
    var s5 := Apply(s4, Cleanup(false));
    ReachableStep(s5, Cleanup(false));
    var s6 := Apply(s5, Cleanup(false));
    ReachableStep(s6, Cleanup(false));
    var s7 := Apply(s6, Cleanup(false));
    s' := s7;
  }

  /** A caller that passed its first check before the close began is still
      counted for a moment, after both drains, before it is rejected. */
  lemma RejectedCallersStillCount()
    ensures exists s :: Reachable(s) && Past(s.closer, Owned) && s.inFlight.count == 1
  {
    hide Legal, After, Reachable;
    InitialReachable();
    ReachableStep(INITIAL, Spawn(0));
    var s1 := Apply(INITIAL, Spawn(0));
    ReachableStep(s1, Enter(0, Begin(InFlight)));
    var s2 := Apply(s1, Enter(0, Begin(InFlight)));
    ReachableStep(s2, Go(0));
    var s3 := Apply(s2, Go(0));
    var closing := CloseFrom(s3, 1);
    var drained := DrainFrom(closing);
    ReachableStep(drained, Go(0));
    assert Past(Apply(drained, Go(0)).closer, Owned) && Apply(drained, Go(0)).inFlight.count == 1;
  }
}
