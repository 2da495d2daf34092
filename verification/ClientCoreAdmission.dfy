/** Who gets what was asked for: the callers of `begin_operation`, `spawn_owned`,
    `publish_resource` and `unregister_resource` of src/client_core.rs. */
module ClientCoreAdmission {
  import opened Errors
  import opened ClientCore
  import opened ClientCoreSafety
  import opened ClientCoreRegistry
  import opened ClientCoreTheorems
  import opened ClientCoreWaits

  /** The caller only goes on with the call it is in. */
  ghost predicate GoesOn(run: seq<Action>, t: Tid) {
    forall a <- run :: !(a.Enter? && a.t == t) && !(a.Drop? && a.t == t)
  }

  /** The caller takes the step at `pc` at a moment when the client is Ready. */
  ghost predicate Meets(s: State, run: seq<Action>, t: Tid, pc: Pc)
    requires Legal(s, run)
    decreases |run|
  {
    && run != []
    && (|| (run[0] == Go(t) && s.threads[t].pc == pc && s.lifecycle.Ready?)
        || Meets(Apply(s, run[0]), run[1..], t, pc))
  }

  lemma GoesOnFurther(run: seq<Action>, t: Tid)
    requires GoesOn(run, t) && run != []
    ensures GoesOn(run[1..], t) && !(run[0].Enter? && run[0].t == t) && !(run[0].Drop? && run[0].t == t)
  {
    assert run[0] in run && forall a <- run[1..] :: a in run;
  }

  lemma OthersStand(s: State, a: Action, t: Tid)
    requires Enabled(s, a) && t in s.threads && Actor(a) != Some(t)
    ensures t in Apply(s, a).threads && Apply(s, a).threads[t] == s.threads[t]
  {
    hide Apply, Clean, CloseStep, AdmissionStep, LifeStep, KeyStep;
    Kinds(s, a);
    if a.Cleanup? { CleanThreads(s, a.fails); }
    else if a.Go? && CloseCall(s.threads[a.t].pc) { CloseNotLife(s, a.t); }
  }

  /** An action of a caller that is inside a call and goes on with it is its next step. */
  lemma OwnStep(s: State, a: Action, t: Tid)
    requires Enabled(s, a) && t in s.threads && Actor(a) == Some(t)
    requires !a.Enter? && !a.Drop? && !s.threads[t].pc.ReportParked? && !s.threads[t].pc.LifeParked?
    ensures a == Go(t) && !s.threads[t].pc.Idle? && CanGo(s, s.threads[t].pc) && Apply(s, a) == Advance(s, t)
  {
  }

  lemma ReadyBefore(s: State, a: Action)
    requires Enabled(s, a) && Apply(s, a).lifecycle.Ready?
    ensures s.lifecycle.Ready?
  {
    hide AdmissionStep, LifeStep, KeyStep;
    Kinds(s, a);
  }

  /** Ready does not come back. */
  lemma {:induction false} ReadyThroughout(s: State, run: seq<Action>)
    requires Legal(s, run) && After(s, run).lifecycle.Ready?
    ensures s.lifecycle.Ready?
    decreases |run|
  {
    hide Apply, Enabled;
    if run != [] {
      ReadyThroughout(Apply(s, run[0]), run[1..]);
      ReadyBefore(s, run[0]);
    }
  }

  // Admission.

  ghost predicate SeeksGuard(pc: Pc, c: Counter) {
    pc == FirstCheck(c) || pc == Increment(c) || pc == SecondCheck(c)
  }

  ghost predicate LeavesGuard(pc: Pc, c: Counter) {
    pc.Idle? || pc == Decrement(c) || pc == Notify(c)
  }

  lemma AdmissionMoves(s: State, t: Tid, c: Counter)
    requires t in s.threads && Admission(s.threads[t].pc)
    requires SeeksGuard(s.threads[t].pc, c) || LeavesGuard(s.threads[t].pc, c)
    ensures var th, s' := s.threads[t], AdmissionStep(s, t);
      && t in s'.threads
      && (SeeksGuard(s'.threads[t].pc, c) || LeavesGuard(s'.threads[t].pc, c))
      && (LeavesGuard(th.pc, c) ==> LeavesGuard(s'.threads[t].pc, c))
      && s'.threads[t].guards == (if th.pc == SecondCheck(c) && s.lifecycle.Ready? then th.guards + {c} else th.guards)
      && (SeeksGuard(th.pc, c) && LeavesGuard(s'.threads[t].pc, c) && s.lifecycle.Ready? ==> th.pc == SecondCheck(c))
  {
  }

  lemma AdmissionAdvance(s: State, t: Tid)
    requires t in s.threads && Admission(s.threads[t].pc)
    ensures CanGo(s, s.threads[t].pc) && Advance(s, t) == AdmissionStep(s, t)
  {
  }

  /** What every run does with a caller of `begin_operation` or `spawn_owned`: it comes
      to hold the guard if and only if its second check finds the client Ready. */
  lemma {:induction false} GuardsAfter(s: State, run: seq<Action>, t: Tid, c: Counter)
    requires Legal(s, run) && GoesOn(run, t) && t in s.threads
    requires SeeksGuard(s.threads[t].pc, c) || LeavesGuard(s.threads[t].pc, c)
    ensures var s' := After(s, run);
      && t in s'.threads
      && s'.threads[t].guards == s.threads[t].guards + (if Meets(s, run, t, SecondCheck(c)) then {c} else {})
      && (SeeksGuard(s.threads[t].pc, c) && LeavesGuard(s'.threads[t].pc, c) && s'.lifecycle.Ready? ==>
            Meets(s, run, t, SecondCheck(c)))
      && (LeavesGuard(s.threads[t].pc, c) ==> !Meets(s, run, t, SecondCheck(c)))
    decreases |run|
  {
    hide Apply, AdmissionStep, Admission;
    if run != [] {
      var s1, rest := Apply(s, run[0]), run[1..];
      GoesOnFurther(run, t);
      if Actor(run[0]) == Some(t) {
        OwnStep(s, run[0], t);
        assert Admission(s.threads[t].pc) by { GuardCallIsAdmission(s.threads[t].pc, c); }
        AdmissionAdvance(s, t);
        AdmissionMoves(s, t, c);
      } else {
        OthersStand(s, run[0], t);
      }
      GuardsAfter(s1, rest, t, c);
      if After(s, run).lifecycle.Ready? { ReadyThroughout(s, run); }
    }
  }

  lemma GuardCallIsAdmission(pc: Pc, c: Counter)
    requires (SeeksGuard(pc, c) || LeavesGuard(pc, c)) && !pc.Idle?
    ensures Admission(pc)
  {
  }

  /** In every run, a caller that has entered `begin_operation` or `spawn_owned` and is
      back holds the guard if and only if its second check found the client Ready;
      so on a client that is still Ready it has been admitted. */
  lemma AdmittedExactly(s: State, run: seq<Action>, t: Tid, c: Counter)
    requires Legal(s, run) && GoesOn(run, t) && t in s.threads
    requires s.threads[t].pc == FirstCheck(c) && c !in s.threads[t].guards
    requires t in After(s, run).threads && After(s, run).threads[t].pc.Idle?
    ensures c in After(s, run).threads[t].guards <==> Meets(s, run, t, SecondCheck(c))
    ensures After(s, run).lifecycle.Ready? ==> c in After(s, run).threads[t].guards
  {
    hide Meets, Legal, After;
    GuardsAfter(s, run, t, c);
  }

  /** Wherever the client is Ready, an idle caller can get the guard by its own steps. */
  lemma ReadyAdmits(s: State, t: Tid, c: Counter)
    requires s.lifecycle.Ready? && t in s.threads && s.threads[t].pc.Idle? && c !in s.threads[t].guards
    ensures var run := [Enter(t, Begin(c)), Go(t), Go(t), Go(t)];
      && Legal(s, run)
      && After(s, run) == SetDrain(s, c, DrainOf(s, c).(count := DrainOf(s, c).count + 1))
                            .(threads := s.threads[t := Thread(s.threads[t].guards + {c}, Idle)])
  {
    hide Legal, After;
    var s1 := Apply(s, Enter(t, Begin(c)));
    var s2 := Apply(s1, Go(t));
    var s3 := Apply(s2, Go(t));
    NoSteps(s);
    AfterAppend(s, [], Enter(t, Begin(c)));
    AfterAppend(s, [] + [Enter(t, Begin(c))], Go(t));
    AfterAppend(s, [] + [Enter(t, Begin(c))] + [Go(t)], Go(t));
    AfterAppend(s, [] + [Enter(t, Begin(c))] + [Go(t)] + [Go(t)], Go(t));
    assert [] + [Enter(t, Begin(c))] + [Go(t)] + [Go(t)] + [Go(t)] == [Enter(t, Begin(c)), Go(t), Go(t), Go(t)];
  }

  lemma NoSteps(s: State)
    ensures Legal(s, []) && After(s, []) == s
  {
  }

  /** The drain does wait: a client can be closing, with a guard held and the cleanup
      parked on that guard's counter. */
  lemma DrainWaits(c: Counter) returns (s: State)
    ensures Reachable(s) && s.lifecycle.Closing? && 0 in s.threads && c in s.threads[0].guards
    ensures s.closer.Parked? && s.closer.c == c && !CanClean(s)
  {
    hide Legal, After, Reachable;
    InitialReachable();
    ReachableStep(INITIAL, Spawn(0));
    var s1 := Apply(INITIAL, Spawn(0));
    var s2 := AdmitFrom(s1, 0, c);
    var s3 := CloseFrom(s2, 1);
    s := s3;
    if c.Owned? {
      ReachableStep(s, Cleanup(false));
      s := Apply(s, Cleanup(false));
    }
    s := ParkFrom(s, c);
  }

  lemma AdmitFrom(s: State, t: Tid, c: Counter) returns (s': State)
    requires Reachable(s) && s.lifecycle.Ready? && t in s.threads && s.threads[t].pc.Idle? && c !in s.threads[t].guards
    ensures Reachable(s')
    ensures s' == SetDrain(s, c, DrainOf(s, c).(count := DrainOf(s, c).count + 1))
                    .(threads := s.threads[t := Thread(s.threads[t].guards + {c}, Idle)])
  {
    hide Legal, After, Reachable;
    ReachableStep(s, Enter(t, Begin(c)));
    var s1 := Apply(s, Enter(t, Begin(c)));
    ReachableStep(s1, Go(t));
    var s2 := Apply(s1, Go(t));
    ReachableStep(s2, Go(t));
    var s3 := Apply(s2, Go(t));
    ReachableStep(s3, Go(t));
    s' := Apply(s3, Go(t));
  }

  lemma ParkFrom(s: State, c: Counter) returns (s': State)
    requires Reachable(s) && s.closer == Test(c) && DrainOf(s, c).count != 0
    ensures Reachable(s') && s' == s.(closer := Parked(c, DrainOf(s, c).gen))
  {
    hide Legal, After, Reachable;
    ReachableStep(s, Cleanup(false));
    var s1 := Apply(s, Cleanup(false));
    ReachableStep(s1, Cleanup(false));
    var s2 := Apply(s1, Cleanup(false));
    ReachableStep(s2, Cleanup(false));
    s' := Apply(s2, Cleanup(false));
  }

  // Publication.

  /** Somewhere between allocating the key and having published it. */
  ghost predicate WillPublish(pc: Pc, key: Key) {
    pc == Insert(key) || (Publishing(pc) && pc.key == key)
  }

  lemma KeyAdvance(s: State, t: Tid)
    requires t in s.threads && Keying(s.threads[t].pc) && CanGo(s, s.threads[t].pc)
    ensures Advance(s, t) == KeyStep(s, t)
  {
  }

  lemma PublicationMoves(s: State, t: Tid, key: Key)
    requires t in s.threads && WillPublish(s.threads[t].pc, key)
    ensures Keying(s.threads[t].pc)
    ensures var pc, s' := s.threads[t].pc, KeyStep(s, t);
      && t in s'.threads && (s.lifecycle.Ready? ==> WillPublish(s'.threads[t].pc, key) || key in s'.history.published)
      && (pc.PublishPush? ==> key in s'.history.published && s'.threads[t].pc.Idle?)
      && (!pc.PublishPush? && !(pc.PublishCheck? && !s.lifecycle.Ready?) ==> WillPublish(s'.threads[t].pc, key))
      && (pc.Insert? ==> s'.threads[t].pc == Publish(key, true) && key in s'.files)
      && (pc.Publish? ==> s'.threads[t].pc == PublishCheck(key, pc.file))
      && (pc.PublishCheck? && s.lifecycle.Ready? ==> s'.threads[t].pc == PublishPush(key, pc.file))
  {
    hide Without;
  }

  /** Published keys stay on record. */
  lemma PublishedStep(s: State, a: Action)
    requires Phased(s) && Enabled(s, a)
    ensures s.history.published <= Apply(s, a).history.published
  {
    hide Apply, Clean, CloseStep, AdmissionStep, LifeStep, KeyStep, Phased;
    if a.Cleanup? {
      Kinds(s, a);
      CleanKeeps(s, a.fails);
    } else if a.Go? && Keying(s.threads[a.t].pc) {
      KeyAdvance(s, a.t);
      GoAdvances(s, a.t);
      KeyPublishes(s, a.t);
    } else {
      KeyFrames(s, a);
    }
  }

  lemma GoAdvances(s: State, t: Tid)
    requires Enabled(s, Go(t))
    ensures Apply(s, Go(t)) == Advance(s, t)
  {
  }

  lemma KeyPublishes(s: State, t: Tid)
    requires t in s.threads && Keying(s.threads[t].pc)
    ensures var pc, s' := s.threads[t].pc, KeyStep(s, t);
      s'.history.published == s.history.published + if pc.PublishPush? then [pc.key] else []
  {
    hide Without;
  }

  lemma {:induction false} PublishedStays(s: State, run: seq<Action>)
    requires Inv(s) && Legal(s, run)
    ensures s.history.published <= After(s, run).history.published
    decreases |run|
  {
    hide Counted, Starting, Drained, DrainAwake, CallersAwake, Keyed, Filed, Phased, Apply, Enabled;
    if run != [] {
      InvKept(s, run[0]);
      PublishedStep(s, run[0]);
      PublishedStays(Apply(s, run[0]), run[1..]);
    }
  }

  /** A caller that still has to publish and is back on a client that is Ready has done so. */
  lemma {:induction false} ReadyPublishes(s: State, run: seq<Action>, t: Tid, key: Key)
    requires Inv(s) && Legal(s, run) && GoesOn(run, t) && t in s.threads && WillPublish(s.threads[t].pc, key)
    requires var s' := After(s, run); t in s'.threads && s'.threads[t].pc.Idle? && s'.lifecycle.Ready?
    ensures key in After(s, run).history.published
    decreases |run|
  {
    hide Inv, Apply, KeyStep, Keying, Enabled, CanGo;
    if run != [] {
      var s1, rest := Apply(s, run[0]), run[1..];
      GoesOnFurther(run, t);
      InvKept(s, run[0]);
      ReadyThroughout(s, run);
      if Actor(run[0]) == Some(t) {
        OwnStep(s, run[0], t);
        PublicationMoves(s, t, key);
        KeyAdvance(s, t);
        if key in s1.history.published { PublishedStays(s1, rest); }
        else { ReadyPublishes(s1, rest, t, key); }
      } else {
        OthersStand(s, run[0], t);
        ReadyPublishes(s1, rest, t, key);
      }
    }
  }

  /** The key was given out, is not published, and no caller has it. */
  ghost predicate GivenUp(s: State, key: Key) {
    && key < s.nextKey && key !in s.history.published
    && (forall u <- s.threads :: Holds(s.threads[u].pc) != Some(key))
  }

  lemma KeyGivenUp(s: State, t: Tid, key: Key)
    requires GivenUp(s, key) && t in s.threads && Keying(s.threads[t].pc)
    ensures GivenUp(KeyStep(s, t), key)
  {
    hide Without;
  }

  lemma GivenUpStep(s: State, a: Action, key: Key)
    requires GivenUp(s, key) && Phased(s) && Enabled(s, a)
    ensures GivenUp(Apply(s, a), key)
  {
    hide Apply, Clean, CloseStep, AdmissionStep, LifeStep, KeyStep, Phased;
    if a.Cleanup? {
      Kinds(s, a);
      CleanKeeps(s, a.fails);
    } else if a.Go? && Keying(s.threads[a.t].pc) {
      KeyAdvance(s, a.t);
      GoAdvances(s, a.t);
      KeyGivenUp(s, a.t, key);
    } else {
      KeyFrames(s, a);
    }
  }

  lemma {:induction false} NeverPublished(s: State, run: seq<Action>, key: Key)
    requires Inv(s) && Legal(s, run) && GivenUp(s, key)
    ensures key !in After(s, run).history.published
    decreases |run|
  {
    hide Counted, Starting, Drained, DrainAwake, CallersAwake, Keyed, Filed, Phased, Apply, Enabled, GivenUp;
    if run != [] {
      InvKept(s, run[0]);
      GivenUpStep(s, run[0], key);
      NeverPublished(Apply(s, run[0]), run[1..], key);
    } else {
      assert key !in s.history.published by { GivenUpUnpublished(s, key); }
    }
  }

  lemma GivenUpUnpublished(s: State, key: Key)
    requires GivenUp(s, key)
    ensures key !in s.history.published
  {
  }

  /** The caller was told that the client is closing. */
  ghost predicate Rejected(s: State, t: Tid, key: Key) {
    t in s.threads && (s.threads[t].pc == Retract(key) || (s.threads[t].pc.Idle? && GivenUp(s, key)))
  }

  lemma PublishRejected(s: State, t: Tid, key: Key)
    requires Keyed(s) && t in s.threads && s.threads[t].pc.PublishCheck? && s.threads[t].pc.key == key
    requires !s.lifecycle.Ready?
    ensures Rejected(KeyStep(s, t), t, key)
  {
    hide Conserved, Without, Distinct;
    assert CallerKeyed(s, t, s.threads[t].pc);
  }

  lemma RetractRejected(s: State, t: Tid, key: Key)
    requires Keyed(s) && t in s.threads && s.threads[t].pc == Retract(key)
    ensures Rejected(KeyStep(s, t), t, key)
  {
    hide Conserved, Without, Distinct;
    assert CallerKeyed(s, t, s.threads[t].pc);
  }

  lemma {:induction false} RejectedForGood(s: State, run: seq<Action>, t: Tid, key: Key)
    requires Inv(s) && Legal(s, run) && GoesOn(run, t) && Rejected(s, t, key)
    requires t in After(s, run).threads && After(s, run).threads[t].pc.Idle?
    ensures key !in After(s, run).history.published
    decreases |run|
  {
    hide Counted, Starting, Drained, DrainAwake, CallersAwake, Keyed, Filed, Phased, Apply, Enabled, GivenUp, KeyStep;
    if s.threads[t].pc.Idle? {
      NeverPublished(s, run, key);
    } else {
      var s1, rest := Apply(s, run[0]), run[1..];
      GoesOnFurther(run, t);
      InvKept(s, run[0]);
      if Actor(run[0]) == Some(t) {
        OwnStep(s, run[0], t);
        KeyAdvance(s, t);
        RetractRejected(s, t, key);
      } else {
        OthersStand(s, run[0], t);
      }
      RejectedForGood(s1, rest, t, key);
    }
  }

  lemma {:induction false} PushOnly(s: State, run: seq<Action>, t: Tid, key: Key, file: bool)
    requires Inv(s) && Legal(s, run) && GoesOn(run, t) && t in s.threads && s.threads[t].pc == PublishPush(key, file)
    requires t in After(s, run).threads && After(s, run).threads[t].pc.Idle?
    ensures key in After(s, run).history.published
    decreases |run|
  {
    hide Inv, Apply, KeyStep, Enabled, CanGo;
    var s1, rest := Apply(s, run[0]), run[1..];
    GoesOnFurther(run, t);
    InvKept(s, run[0]);
    if Actor(run[0]) == Some(t) {
      OwnStep(s, run[0], t);
      PublicationMoves(s, t, key);
      KeyAdvance(s, t);
      PublishedStays(s1, rest);
    } else {
      OthersStand(s, run[0], t);
      PushOnly(s1, rest, t, key, file);
    }
  }

  /** In every run, a caller of `publish_resource` that is back has published its key if
      and only if the check under the registry lock found the client Ready. */
  lemma {:induction false} PublishedExactly(s: State, run: seq<Action>, t: Tid, key: Key, file: bool)
    requires Inv(s) && Legal(s, run) && GoesOn(run, t) && t in s.threads
    requires s.threads[t].pc == Publish(key, file) || s.threads[t].pc == PublishCheck(key, file)
    requires t in After(s, run).threads && After(s, run).threads[t].pc.Idle?
    ensures key in After(s, run).history.published <==> Meets(s, run, t, PublishCheck(key, file))
    decreases |run|
  {
    hide Counted, Starting, Drained, DrainAwake, CallersAwake, Keyed, Filed, Phased, Apply, Enabled, CanGo, KeyStep;
    hide Rejected;
    var s1, rest := Apply(s, run[0]), run[1..];
    GoesOnFurther(run, t);
    InvKept(s, run[0]);
    if Actor(run[0]) == Some(t) {
      OwnStep(s, run[0], t);
      PublicationMoves(s, t, key);
      KeyAdvance(s, t);
      if s.threads[t].pc.Publish? {
        PublishedExactly(s1, rest, t, key, file);
      } else if s.lifecycle.Ready? {
        PushOnly(s1, rest, t, key, file);
      } else {
        PublishRejected(s, t, key);
        RejectedForGood(s1, rest, t, key);
        NotReadyAgain(s, run, t, PublishCheck(key, file));
      }
    } else {
      OthersStand(s, run[0], t);
      PublishedExactly(s1, rest, t, key, file);
    }
  }

  lemma {:induction false} NotReadyAgain(s: State, run: seq<Action>, t: Tid, pc: Pc)
    requires Legal(s, run) && !s.lifecycle.Ready?
    ensures !Meets(s, run, t, pc)
    decreases |run|
  {
    hide Apply, Enabled;
    if run != [] {
      if Apply(s, run[0]).lifecycle.Ready? { ReadyBefore(s, run[0]); }
      NotReadyAgain(Apply(s, run[0]), run[1..], t, pc);
    }
  }

  ghost predicate Takes(pc: Pc, file: bool) {
    pc == KeyCheck(file) || pc == KeyTake(file)
  }

  /** The key was given out for an adapter file, or for none. */
  ghost predicate GivenFor(s: State, key: Key, file: bool) {
    key < s.nextKey && (key in s.history.bare <==> !file)
  }

  lemma TakeKey(s: State, t: Tid, file: bool)
    requires t in s.threads && Takes(s.threads[t].pc, file) && forall k <- s.history.bare :: k < s.nextKey
    ensures var pc, s' := s.threads[t].pc, KeyStep(s, t);
      && t in s'.threads
      && (pc.KeyTake? ==> WillPublish(s'.threads[t].pc, s.nextKey) && GivenFor(s', s.nextKey, file))
      && (pc.KeyCheck? && s.lifecycle.Ready? ==> s'.threads[t].pc == KeyTake(file))
  {
    hide Without;
  }

  /** Keys are given out in increasing order, each for good. */
  lemma KeysStep(s: State, a: Action, key: Key, file: bool)
    requires Phased(s) && Enabled(s, a)
    ensures s.nextKey <= Apply(s, a).nextKey
    ensures GivenFor(s, key, file) ==> GivenFor(Apply(s, a), key, file)
  {
    hide Apply, Clean, CloseStep, AdmissionStep, LifeStep, Phased, Without, KeyStep;
    if a.Cleanup? {
      Kinds(s, a);
      CleanKeeps(s, a.fails);
      CleanBare(s, a.fails);
    } else if a.Go? && Keying(s.threads[a.t].pc) {
      KeyAdvance(s, a.t);
      GoAdvances(s, a.t);
      KeyBare(s, a.t);
    } else {
      KeyFrames(s, a);
    }
  }

  lemma CleanBare(s: State, fails: bool)
    requires CanClean(s)
    ensures Clean(s, fails).history.bare == s.history.bare
  {
  }

  lemma KeyBare(s: State, t: Tid)
    requires t in s.threads && Keying(s.threads[t].pc)
    ensures var s' := KeyStep(s, t);
      && s.nextKey <= s'.nextKey && s.history.bare <= s'.history.bare
      && forall k <- s'.history.bare :: k in s.history.bare || k == s.nextKey
  {
    hide Without;
  }

  lemma {:induction false} GivenForGood(s: State, run: seq<Action>, key: Key, file: bool)
    requires Inv(s) && Legal(s, run) && GivenFor(s, key, file)
    ensures GivenFor(After(s, run), key, file)
    decreases |run|
  {
    hide Counted, Starting, Drained, DrainAwake, CallersAwake, Keyed, Filed, Phased, Apply, Enabled, GivenFor;
    if run != [] {
      InvKept(s, run[0]);
      KeysStep(s, run[0], key, file);
      GivenForGood(Apply(s, run[0]), run[1..], key, file);
    }
  }

  lemma {:induction false} TakesAndPublishes(s: State, run: seq<Action>, t: Tid, file: bool) returns (key: Key)
    requires Inv(s) && Legal(s, run) && GoesOn(run, t) && t in s.threads && Takes(s.threads[t].pc, file)
    requires var s' := After(s, run); t in s'.threads && s'.threads[t].pc.Idle? && s'.lifecycle.Ready?
    ensures s.nextKey <= key && key in After(s, run).history.published && GivenFor(After(s, run), key, file)
    decreases |run|
  {
    hide Counted, Starting, Drained, DrainAwake, CallersAwake, Keyed, Filed, Phased, Apply, Enabled, CanGo, KeyStep;
    hide GivenFor;
    var s1, rest := Apply(s, run[0]), run[1..];
    GoesOnFurther(run, t);
    InvKept(s, run[0]);
    ReadyThroughout(s, run);
    KeysStep(s, run[0], 0, file);
    if Actor(run[0]) == Some(t) {
      OwnStep(s, run[0], t);
      KeyAdvance(s, t);
      BareKeysGiven(s);
      TakeKey(s, t, file);
      if s.threads[t].pc.KeyTake? {
        key := s.nextKey;
        ReadyPublishes(s1, rest, t, key);
        GivenForGood(s1, rest, key, file);
      } else {
        key := TakesAndPublishes(s1, rest, t, file);
      }
    } else {
      OthersStand(s, run[0], t);
      key := TakesAndPublishes(s1, rest, t, file);
    }
  }

  lemma BareKeysGiven(s: State)
    requires Filed(s)
    ensures forall k <- s.history.bare :: k < s.nextKey
  {
  }

  /** In every run, a call of `register_resource` or of an adapter open that is back on a
      client that is still Ready has published a key of its own, one never given out
      before; the open's key stands for a file, the other for none. */
  lemma RegisterPublishes(s: State, call: Call, run: seq<Action>, t: Tid) returns (key: Key)
    requires Inv(s) && (call.Register? || call.OpenFile?) && Enabled(s, Enter(t, call))
    requires Legal(Apply(s, Enter(t, call)), run) && GoesOn(run, t)
    requires var s' := After(Apply(s, Enter(t, call)), run);
      t in s'.threads && s'.threads[t].pc.Idle? && s'.lifecycle.Ready?
    ensures var s' := After(Apply(s, Enter(t, call)), run);
      && s.nextKey <= key < s'.nextKey && key in s'.history.published
      && (key in s'.history.bare <==> call.Register?)
  {
    hide Inv, After, Legal;
    InvKept(s, Enter(t, call));
    key := TakesAndPublishes(Apply(s, Enter(t, call)), run, t, call.OpenFile?);
  }

  // Removal.

  /** Published and no longer registered. */
  ghost predicate Gone(s: State, key: Key) {
    key in s.history.published && key !in s.resources
  }

  lemma KeyGone(s: State, t: Tid, key: Key)
    requires Keyed(s) && t in s.threads && Keying(s.threads[t].pc)
    requires Gone(s, key) || (key in s.history.published && s.threads[t].pc.Unregister? && s.threads[t].pc.key == key)
    ensures Gone(KeyStep(s, t), key)
  {
    hide Conserved, Keep;
    assert CallerKeyed(s, t, s.threads[t].pc);
    ResourcesDistinct(s);
    WithoutElements(s.resources, if s.threads[t].pc.Unregister? then s.threads[t].pc.key else key);
  }

  lemma CleanGone(s: State, fails: bool, key: Key)
    requires CanClean(s) && Gone(s, key)
    ensures Gone(Clean(s, fails), key)
  {
  }

  lemma GoneStep(s: State, a: Action, key: Key)
    requires Gone(s, key) && Keyed(s) && Phased(s) && Enabled(s, a)
    ensures Gone(Apply(s, a), key)
  {
    hide Apply, Clean, CloseStep, AdmissionStep, LifeStep, KeyStep, Phased, Keyed;
    if a.Cleanup? {
      Kinds(s, a);
      CleanGone(s, a.fails, key);
    } else if a.Go? && Keying(s.threads[a.t].pc) {
      KeyAdvance(s, a.t);
      GoAdvances(s, a.t);
      KeyGone(s, a.t, key);
    } else {
      KeyFrames(s, a);
    }
  }

  lemma {:induction false} GoneForGood(s: State, run: seq<Action>, key: Key)
    requires Inv(s) && Legal(s, run) && Gone(s, key)
    ensures Gone(After(s, run), key)
    decreases |run|
  {
    hide Counted, Starting, Drained, DrainAwake, CallersAwake, Keyed, Filed, Phased, Apply, Enabled, Gone;
    if run != [] {
      InvKept(s, run[0]);
      GoneStep(s, run[0], key);
      GoneForGood(Apply(s, run[0]), run[1..], key);
    }
  }

  /** In every run, a key whose `unregister_resource` has passed the registry lock is not
      registered, then and ever after. */
  lemma {:induction false} UnregisterRemoves(s: State, run: seq<Action>, t: Tid, key: Key)
    requires Inv(s) && Legal(s, run) && GoesOn(run, t) && t in s.threads && key in s.history.published
    requires s.threads[t].pc.Unregister? && s.threads[t].pc.key == key
    requires t in After(s, run).threads && !After(s, run).threads[t].pc.Unregister?
    ensures Gone(After(s, run), key)
    decreases |run|
  {
    hide Counted, Starting, Drained, DrainAwake, CallersAwake, Keyed, Filed, Phased, Apply, Enabled, CanGo, KeyStep;
    hide Gone;
    var s1, rest := Apply(s, run[0]), run[1..];
    GoesOnFurther(run, t);
    InvKept(s, run[0]);
    if Actor(run[0]) == Some(t) {
      OwnStep(s, run[0], t);
      KeyAdvance(s, t);
      KeyGone(s, t, key);
      GoneForGood(s1, rest, key);
    } else {
      OthersStand(s, run[0], t);
      PublishedStep(s, run[0]);
      UnregisterRemoves(s1, rest, t, key);
    }
  }

  /** While nobody holds the registry lock a caller of `unregister_resource` can go on, and
      exactly its key leaves the registry; it is on record as removed if it was there. */
  lemma UnregisterNow(s: State, t: Tid, key: Key)
    requires Inv(s) && s.registry.None? && t in s.threads
    requires s.threads[t].pc.Unregister? && s.threads[t].pc.key == key
    ensures Enabled(s, Go(t))
    ensures var s' := Apply(s, Go(t));
      && (forall k :: k in s'.resources <==> k in s.resources && k != key)
      && s'.history.removed == s.history.removed + (if key in s.resources then {key} else {})
  {
    hide Counted, Starting, Drained, DrainAwake, CallersAwake, Keyed, Filed, Phased;
    ResourcesDistinct(s);
    WithoutElements(s.resources, key);
  }
}
