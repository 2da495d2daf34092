/** Who can still see the Closing phase: `wait_for_lifecycle` of src/client_core.rs. */
module ClientCoreWaits {
  import opened Errors
  import opened ClientCore
  import opened ClientCoreSafety
  import opened ClientCoreTheorems

  /** Inside `wait_for_lifecycle(Closing)`. */
  ghost predicate Awaits(s: State, t: Tid) {
    t in s.threads && LifeWait(s.threads[t].pc) && s.threads[t].pc.want.Closing?
  }

  ghost predicate Sees(s: State, t: Tid) {
    t in s.threads && s.threads[t].pc == LifeSeen(Closing)
  }

  /** The caller begins nothing new: it stays in the wait it is in. */
  ghost predicate Stays(run: seq<Action>, t: Tid) {
    forall a <- run :: !(a.Enter? && a.t == t)
  }

  ghost predicate Leads(s: State, t: Tid, s': State) {
    exists run: seq<Action> :: Legal(s, run) && Stays(run, t) && After(s, run) == s'
  }

  lemma LeadsNowhere(s: State, t: Tid)
    ensures Leads(s, t, s)
  {
    assert Legal(s, []) && Stays([], t) && After(s, []) == s;
  }

  lemma LeadsOn(s: State, t: Tid, s': State, a: Action)
    requires Leads(s, t, s') && Enabled(s', a) && !(a.Enter? && a.t == t)
    ensures Leads(s, t, Apply(s', a))
  {
    var run :| Legal(s, run) && Stays(run, t) && After(s, run) == s';
    AfterAppend(s, run, a);
    assert Stays(run + [a], t);
  }

  // Before Closed there is a way.

  lemma {:induction false} FreshTid(keys: set<Tid>) returns (u: Tid)
    ensures forall k <- keys :: k < u
  {
    u := 0;
    if keys != {} {
      var k :| k in keys;
      var v := FreshTid(keys - {k});
      u := if v <= k then k + 1 else v;
      assert keys == keys - {k} + {k};
    }
  }

  /** The lifecycle is Closing and the caller is not parked in vain. */
  ghost predicate Awakened(s: State, t: Tid) {
    s.lifecycle.Closing? && Awaits(s, t) && CanGo(s, s.threads[t].pc)
  }

  /** Somebody else goes through the steps of `close` up to the notification. */
  lemma Announce(s0: State, s: State, t: Tid, u: Tid) returns (s': State)
    requires Leads(s0, t, s) && Awaits(s, t) && CallerAwake(s, s.threads[t].pc)
    requires u in s.threads && u != t && (s.threads[u].pc.StoreClosing? || s.threads[u].pc.NotifyClosing?)
    requires s.threads[u].pc.NotifyClosing? ==> s.lifecycle.Closing?
    ensures Leads(s0, t, s') && Awakened(s', t)
  {
    hide Leads, ClosingPending;
    s' := s;
    if s.threads[u].pc.StoreClosing? {
      LeadsOn(s0, t, s, Go(u));
      s' := Apply(s, Go(u));
    }
    LeadsOn(s0, t, s', Go(u));
    s' := Apply(s', Go(u));
  }

  lemma BeginClose(s: State, t: Tid) returns (s': State, u: Tid)
    requires Awaits(s, t) && !s.started
    ensures Leads(s, t, s') && u in s'.threads && u != t && s'.threads[u].pc.StoreClosing?
    ensures s'.lifeGen == s.lifeGen && s'.lifecycle == s.lifecycle && t in s'.threads && s'.threads[t] == s.threads[t]
  {
    hide Leads;
    u := FreshTid(s.threads.Keys);
    LeadsNowhere(s, t);
    LeadsOn(s, t, s, Spawn(u));
    var s1 := Apply(s, Spawn(u));
    LeadsOn(s, t, s1, Enter(u, Close));
    var s2 := Apply(s1, Enter(u, Close));
    LeadsOn(s, t, s2, Go(u));
    s' := Apply(s2, Go(u));
  }

  lemma ReachClosing(s: State, t: Tid) returns (s': State)
    requires Inv(s) && Awaits(s, t) && !s.lifecycle.Closed?
    ensures Leads(s, t, s') && Awakened(s', t)
  {
    hide Counted, Drained, DrainAwake, ClientCoreRegistry.Keyed, ClientCoreRegistry.Filed, Leads;
    LeadsNowhere(s, t);
    assert CallerAwake(s, s.threads[t].pc) && CallerInPhase(s, s.threads[t].pc);
    if s.lifecycle.Ready? && !s.started {
      var s1, u := BeginClose(s, t);
      s' := Announce(s, s1, t, u);
    } else if s.lifecycle.Ready? {
      var u :| u in s.threads && Starter(s.threads[u].pc);
      assert CallerInPhase(s, s.threads[u].pc);
      s' := Announce(s, s, t, u);
    } else if ClosingPending(s) {
      var u :| u in s.threads && s.threads[u].pc.NotifyClosing?;
      s' := Announce(s, s, t, u);
    } else {
      s' := s;
    }
  }

  /** Once awake in the Closing phase the caller gets there by itself. */
  lemma SeeClosing(s0: State, s: State, t: Tid) returns (s': State)
    requires Leads(s0, t, s) && Awakened(s, t)
    ensures Leads(s0, t, s') && Sees(s', t)
  {
    hide Leads;
    s' := Retest(s0, s, t);
    if s'.threads[t].pc.LifeTest? {
      LeadsOn(s0, t, s', Go(t));
      s' := Apply(s', Go(t));
    }
  }

  lemma Retest(s0: State, s: State, t: Tid) returns (s': State)
    requires Leads(s0, t, s) && Awakened(s, t)
    ensures Leads(s0, t, s') && Awakened(s', t) && (s'.threads[t].pc.LifeTest? || s'.threads[t].pc.LifeSeen?)
  {
    hide Leads;
    s' := s;
    if s'.threads[t].pc.LifeParked? {
      LeadsOn(s0, t, s', Go(t));
      s' := Apply(s', Go(t));
    }
    if s'.threads[t].pc.LifeArm? {
      LeadsOn(s0, t, s', Go(t));
      s' := Apply(s', Go(t));
    }
    if s'.threads[t].pc.LifeArmed? {
      LeadsOn(s0, t, s', Go(t));
      s' := Apply(s', Go(t));
    }
  }

  // After Closed there is none.

  lemma ClosedStays(s: State, a: Action)
    requires Phased(s) && s.lifecycle.Closed? && Enabled(s, a)
    ensures Apply(s, a).lifecycle.Closed?
  {
    hide Clean, CloseStep, AdmissionStep, LifeStep, KeyStep;
    Kinds(s, a);
    if a.Cleanup? { CleanClosed(s, a.fails); }
    else if a.Go? && CloseCall(s.threads[a.t].pc) {
      assert CallerInPhase(s, s.threads[a.t].pc);
      LateClose(s, a.t);
    }
  }

  lemma CleanClosed(s: State, fails: bool)
    requires CanClean(s) && HasClosed(s.closer)
    ensures Clean(s, fails).lifecycle == s.lifecycle
  {
  }

  lemma LateClose(s: State, t: Tid)
    requires t in s.threads && CloseCall(s.threads[t].pc) && !Starter(s.threads[t].pc)
    ensures CloseStep(s, t).lifecycle == s.lifecycle
  {
  }

  lemma NothingToSee(s: State, a: Action, t: Tid)
    requires Enabled(s, a) && s.lifecycle.Closed? && !Sees(s, t)
    ensures !Sees(Apply(s, a), t)
  {
    hide Clean, CloseStep, AdmissionStep, LifeStep, KeyStep;
    Kinds(s, a);
    if a.Cleanup? { CleanThreads(s, a.fails); }
    else if a.Go? {
      if a.t == t && LifeWait(s.threads[t].pc) { LifeNotSeen(s, t); }
      else if CloseCall(s.threads[a.t].pc) { CloseNotLife(s, a.t); }
    }
  }

  lemma CleanThreads(s: State, fails: bool)
    requires CanClean(s)
    ensures Clean(s, fails).threads == s.threads
  {
  }

  lemma LifeNotSeen(s: State, t: Tid)
    requires t in s.threads && LifeWait(s.threads[t].pc) && s.lifecycle.Closed? && s.threads[t].pc != LifeSeen(Closing)
    ensures LifeStep(s, t).threads[t].pc != LifeSeen(Closing)
  {
  }

  lemma CloseNotLife(s: State, t: Tid)
    requires t in s.threads && CloseCall(s.threads[t].pc)
    ensures CloseStep(s, t).threads == s.threads[t := CloseStep(s, t).threads[t]]
    ensures !LifeWait(CloseStep(s, t).threads[t].pc)
  {
  }

  lemma {:induction false} NeverSees(s: State, t: Tid, run: seq<Action>)
    requires Inv(s) && Legal(s, run) && s.lifecycle.Closed? && !Sees(s, t)
    ensures !Sees(After(s, run), t)
    decreases |run|
  {
    hide Apply, Enabled, Counted, Drained, DrainAwake, CallersAwake, Sees;
    if run != [] {
      InvKept(s, run[0]);
      ClosedStays(s, run[0]);
      NothingToSee(s, run[0], t);
      NeverSees(Apply(s, run[0]), t, run[1..]);
    }
  }

  /** A caller inside `wait_for_lifecycle(Closing)`, guarded or not, can still come to
      see Closing if and only if Closed has not been stored yet, or it has seen it. */
  lemma ClosingSeenExactly(s: State, t: Tid)
    requires Reachable(s) && Awaits(s, t)
    ensures (exists run: seq<Action> :: Legal(s, run) && Stays(run, t) && Sees(After(s, run), t)) <==>
      !s.lifecycle.Closed? || Sees(s, t)
  {
    hide Inv, Reachable;
    ReachableInv(s);
    if !s.lifecycle.Closed? {
      var s1 := ReachClosing(s, t);
      var s2 := SeeClosing(s, s1, t);
    } else if Sees(s, t) {
      LeadsNowhere(s, t);
    } else {
      forall run: seq<Action> | Legal(s, run) ensures !Sees(After(s, run), t) {
        NeverSees(s, t, run);
      }
    }
  }

  /** A guard keeps the client from Closed, so its holder is always in time. */
  lemma GuardedWaiterIsInTime(s: State, t: Tid)
    requires Reachable(s) && Awaits(s, t) && s.threads[t].guards != {}
    ensures exists run: seq<Action> :: Legal(s, run) && Stays(run, t) && Sees(After(s, run), t)
  {
    hide Reachable;
    NoLostWakeups(s);
    ClosingSeenExactly(s, t);
  }

  /** Without a guard a waiter can come too late: such a state is reachable. */
  lemma LateWaiterExists()
    ensures exists s, t :: Reachable(s) && Awaits(s, t) && s.lifecycle.Closed? && !Sees(s, t)
  {
    hide Legal, After, Reachable;
    InitialReachable();
    var closing := CloseFrom(INITIAL, 0);
    var drained := DrainFrom(closing);
    var closed := FinishFrom(drained);
    ReachableStep(closed, Spawn(1));
    var s1 := Apply(closed, Spawn(1));
    ReachableStep(s1, Enter(1, Await(Closing)));
    var s2 := Apply(s1, Enter(1, Await(Closing)));
    assert Awaits(s2, 1) && !Sees(s2, 1);
  }
}
