/** Inductive invariants of the client core and what they give in every reachable state. */
module ClientCoreSafety {
  import opened Errors
  import opened ClientCore

  // Counters: each counter is the number of callers it stands for.

  /** The caller is included in the counter's value. */
  ghost predicate Contributes(th: Thread, c: Counter) {
    c in th.guards || th.pc == SecondCheck(c) || th.pc == Decrement(c)
  }

  ghost function Contributors(threads: map<Tid, Thread>, c: Counter): set<Tid> {
    set t | t in threads && Contributes(threads[t], c)
  }

  /** A caller on its way to a guard does not hold that guard yet. */
  ghost predicate Seeks(th: Thread) {
    (th.pc.FirstCheck? || th.pc.Increment? || th.pc.SecondCheck? || th.pc.Decrement?) ==> th.pc.c !in th.guards
  }

  ghost predicate Counted(s: State) {
    && s.inFlight.count == |Contributors(s.threads, InFlight)|
    && s.owned.count == |Contributors(s.threads, Owned)|
    && (forall t <- s.threads :: Seeks(s.threads[t]))
  }

  /** The caller an action belongs to; cleanup steps belong to none. */
  ghost function Actor(a: Action): Option<Tid> {
    match a
    case Spawn(t) => Some(t)
    case Enter(t, _) => Some(t)
    case Go(t) => Some(t)
    case Drop(t, _) => Some(t)
    case Cancel(t) => Some(t)
    case Cleanup(_) => None
  }

  ghost function Share(threads: map<Tid, Thread>, t: Tid, c: Counter): int {
    if t in threads && Contributes(threads[t], c) then 1 else 0
  }

  /** `t` is the only caller that moves from `s` to `s'`. */
  ghost predicate Moves(s: State, s': State, t: Tid) {
    t in s'.threads && s'.threads == s.threads[t := s'.threads[t]]
  }

  ghost predicate Balances(s: State, s': State, t: Tid) {
    && Moves(s, s', t) && Seeks(s'.threads[t])
    && s'.inFlight.count - s.inFlight.count == Share(s'.threads, t, InFlight) - Share(s.threads, t, InFlight)
    && s'.owned.count - s.owned.count == Share(s'.threads, t, Owned) - Share(s.threads, t, Owned)
  }

  lemma AdmissionBalances(s: State, t: Tid)
    requires t in s.threads && Admission(s.threads[t].pc) && Seeks(s.threads[t])
    ensures Balances(s, AdmissionStep(s, t), t)
  {
  }

  /** A step outside admission: counters and guards stay as they are. */
  ghost predicate Shifts(s: State, s': State, t: Tid) {
    && t in s.threads && Moves(s, s', t) && s'.threads[t].guards == s.threads[t].guards
    && !Admission(s'.threads[t].pc) && s'.inFlight == s.inFlight && s'.owned == s.owned
  }

  lemma CloseShifts(s: State, t: Tid)
    requires t in s.threads && CloseCall(s.threads[t].pc)
    ensures Shifts(s, CloseStep(s, t), t)
  {
  }

  lemma LifeShifts(s: State, t: Tid)
    requires t in s.threads && LifeWait(s.threads[t].pc)
    ensures Shifts(s, LifeStep(s, t), t)
  {
  }

  lemma KeyShifts(s: State, t: Tid)
    requires t in s.threads && Keying(s.threads[t].pc)
    ensures Shifts(s, KeyStep(s, t), t)
  {
  }

  lemma ShiftBalances(s: State, s': State, t: Tid)
    requires Shifts(s, s', t) && !Admission(s.threads[t].pc)
    ensures Balances(s, s', t)
  {
  }

  lemma ActorBalances(s: State, a: Action)
    requires Enabled(s, a) && forall t <- s.threads :: Seeks(s.threads[t])
    ensures var s' := Apply(s, a);
      if Actor(a).None? then s'.threads == s.threads && s'.inFlight == s.inFlight && s'.owned == s.owned
      else Balances(s, s', Actor(a).value)
  {
    hide AdmissionStep, CloseStep, LifeStep, KeyStep;
    if a.Go? {
      hide Balances, Clean, Shifts;
      var pc := s.threads[a.t].pc;
      if Admission(pc) {
        AdmissionBalances(s, a.t);
      } else {
        if CloseCall(pc) { CloseShifts(s, a.t); }
        else if LifeWait(pc) { LifeShifts(s, a.t); }
        else { KeyShifts(s, a.t); }
        ShiftBalances(s, Apply(s, a), a.t);
      }
    }
  }

  lemma ContributorsChange(threads: map<Tid, Thread>, t: Tid, th: Thread, c: Counter)
    ensures var threads' := threads[t := th];
      |Contributors(threads', c)| - |Contributors(threads, c)| == Share(threads', t, c) - Share(threads, t, c)
  {
    var before, after := Contributors(threads, c), Contributors(threads[t := th], c);
    assert after == if Contributes(th, c) then before + {t} else before - {t};
  }

  lemma CountedKept(s: State, a: Action)
    requires Counted(s) && Enabled(s, a)
    ensures Counted(Apply(s, a))
  {
    hide Enabled, Apply, Contributes, Contributors, Share;
    ActorBalances(s, a);
    if Actor(a).Some? {
      var t := Actor(a).value;
      ContributorsChange(s.threads, t, Apply(s, a).threads[t], InFlight);
      ContributorsChange(s.threads, t, Apply(s, a).threads[t], Owned);
    }
  }

  // Phases: lifecycle, starter, cleanup task and report advance together.

  ghost predicate Starter(pc: Pc) {
    pc.StoreClosing? || pc.NotifyClosing? || pc.SpawnCloser?
  }

  ghost predicate HasClosed(closer: Closer) {
    closer.NotifyClosed? || closer.StoreReport? || closer.NotifyReport? || closer.Finished?
  }

  ghost predicate CallerInPhase(s: State, pc: Pc) {
    && (Starter(pc) ==> s.started && s.closer.Unborn? && (s.lifecycle.Ready? <==> pc.StoreClosing?))
    && (pc.Answered? ==> s.report == Some(pc.report))
  }

  ghost predicate Phased(s: State) {
    && (!s.started ==> s.lifecycle.Ready? && s.closer.Unborn?)
    && (s.closer.Unborn? ==> !s.lifecycle.Closed?)
    && (!s.closer.Unborn? ==> s.started && s.lifecycle == if HasClosed(s.closer) then Closed else Closing)
    && (s.report.Some? <==> s.closer.NotifyReport? || s.closer.Finished?)
    && (forall t <- s.threads :: CallerInPhase(s, s.threads[t].pc))
    && (forall t <- s.threads, u <- s.threads :: Starter(s.threads[t].pc) && Starter(s.threads[u].pc) ==> t == u)
  }

  lemma ClosePhased(s: State, t: Tid)
    requires Phased(s) && t in s.threads && CloseCall(s.threads[t].pc)
    ensures Phased(CloseStep(s, t))
  {
    var s' := CloseStep(s, t);
    forall u | u in s'.threads ensures CallerInPhase(s', s'.threads[u].pc) {
      assert CallerInPhase(s, s.threads[u].pc);
    }
  }

  lemma CleanPhased(s: State, fails: bool)
    requires Phased(s) && CanClean(s)
    ensures Phased(Clean(s, fails))
  {
    var s' := Clean(s, fails);
    assert s'.threads == s.threads;
    forall u | u in s'.threads ensures CallerInPhase(s', s'.threads[u].pc) {
      assert CallerInPhase(s, s.threads[u].pc);
    }
  }

  /** A step that leaves the lifecycle, the cleanup and the report alone. */
  ghost predicate Quiet(s: State, s': State, t: Tid) {
    && Moves(s, s', t)
    && s'.lifecycle == s.lifecycle && s'.started == s.started && s'.closer == s.closer && s'.report == s.report
    && s'.lifeGen == s.lifeGen && s'.reportGen == s.reportGen
    && (s'.threads[t].pc.TryStart? || !CloseCall(s'.threads[t].pc))
    && ((t in s.threads && LifeWait(s.threads[t].pc)) || s'.threads[t].pc.LifeTest? || !LifeWait(s'.threads[t].pc))
    && (s.lifecycle.Ready? || s'.threads[t].guards <= if t in s.threads then s.threads[t].guards else {})
  }

  lemma AdmissionQuiet(s: State, t: Tid)
    requires t in s.threads && Admission(s.threads[t].pc)
    ensures Quiet(s, AdmissionStep(s, t), t)
  {
  }

  lemma LifeQuiet(s: State, t: Tid)
    requires t in s.threads && LifeWait(s.threads[t].pc)
    ensures Quiet(s, LifeStep(s, t), t)
  {
  }

  lemma KeyQuiet(s: State, t: Tid)
    requires t in s.threads && Keying(s.threads[t].pc)
    ensures Quiet(s, KeyStep(s, t), t)
  {
    hide KeyStep, CloseCall, LifeWait, Keying;
    KeyFrame(s, t);
    KeyStaysQuiet(s, t);
  }

  lemma KeyFrame(s: State, t: Tid)
    requires t in s.threads && Keying(s.threads[t].pc)
    ensures var s' := KeyStep(s, t);
      && Moves(s, s', t) && s'.threads[t].guards == s.threads[t].guards
      && s'.lifecycle == s.lifecycle && s'.started == s.started && s'.closer == s.closer && s'.report == s.report
      && s'.lifeGen == s.lifeGen && s'.reportGen == s.reportGen
  {
    hide Without;
  }

  lemma KeyStaysQuiet(s: State, t: Tid)
    requires t in s.threads && Keying(s.threads[t].pc)
    ensures var pc := KeyStep(s, t).threads[t].pc; !CloseCall(pc) && !LifeWait(pc)
  {
    hide Without;
  }

  /** Every action is a cleanup step, a step of `close`, or quiet. */
  lemma Kinds(s: State, a: Action)
    requires Enabled(s, a)
    ensures var s' := Apply(s, a);
      if a.Cleanup? then s' == Clean(s, a.fails)
      else if a.Go? && CloseCall(s.threads[a.t].pc) then s' == CloseStep(s, a.t)
      else Quiet(s, s', Actor(a).value)
  {
    hide AdmissionStep, CloseStep, LifeStep, KeyStep, Clean;
    if a.Go? {
      hide Quiet;
      if Admission(s.threads[a.t].pc) { AdmissionQuiet(s, a.t); }
      else if CloseCall(s.threads[a.t].pc) { }
      else if LifeWait(s.threads[a.t].pc) { LifeQuiet(s, a.t); }
      else { KeyQuiet(s, a.t); }
    }
  }

  lemma QuietPhased(s: State, s': State, t: Tid)
    requires Phased(s) && Quiet(s, s', t)
    ensures Phased(s')
  {
    forall u | u in s'.threads && u != t ensures CallerInPhase(s', s'.threads[u].pc) {
      assert CallerInPhase(s, s.threads[u].pc);
    }
  }

  lemma PhasedKept(s: State, a: Action)
    requires Phased(s) && Enabled(s, a)
    ensures Phased(Apply(s, a))
  {
    hide Phased, Apply, Quiet, Clean, CloseStep;
    Kinds(s, a);
    if a.Cleanup? { CleanPhased(s, a.fails); }
    else if a.Go? && CloseCall(s.threads[a.t].pc) { ClosePhased(s, a.t); }
    else { QuietPhased(s, Apply(s, a), Actor(a).value); }
  }

  /** A close that was started and has not spawned its cleanup has somebody to do so. */
  ghost predicate Starting(s: State) {
    s.started && s.closer.Unborn? ==> exists t <- s.threads :: Starter(s.threads[t].pc)
  }

  lemma CloseStarting(s: State, t: Tid)
    requires Phased(s) && Starting(s) && t in s.threads && CloseCall(s.threads[t].pc)
    ensures Starting(CloseStep(s, t))
  {
    var s' := CloseStep(s, t);
    if s.started && s.closer.Unborn? {
      var u :| u in s.threads && Starter(s.threads[u].pc);
      assert u != t ==> Starter(s'.threads[u].pc);
      assert u == t ==> s'.threads[t].pc.ReportArm? || Starter(s'.threads[t].pc);
    } else {
      assert Starter(s'.threads[t].pc) ==> t in s'.threads;
    }
  }

  lemma QuietStarting(s: State, s': State, t: Tid)
    requires Starting(s) && Quiet(s, s', t) && (t in s.threads ==> !Starter(s.threads[t].pc))
    ensures Starting(s')
  {
    if s.started && s.closer.Unborn? {
      var u :| u in s.threads && Starter(s.threads[u].pc);
      assert Starter(s'.threads[u].pc);
    }
  }

  lemma StartingKept(s: State, a: Action)
    requires Phased(s) && Starting(s) && Enabled(s, a)
    ensures Starting(Apply(s, a))
  {
    hide Phased, Starting, Apply, Quiet, CloseStep;
    Kinds(s, a);
    if a.Cleanup? { CleanStarting(s, a.fails); }
    else if a.Go? && CloseCall(s.threads[a.t].pc) { CloseStarting(s, a.t); }
    else { QuietStarting(s, Apply(s, a), Actor(a).value); }
  }

  lemma CleanStarting(s: State, fails: bool)
    requires CanClean(s)
    ensures Starting(Clean(s, fails))
  {
  }

  // Draining: past a counter's drain, nobody holds its guard again.

  ghost predicate Draining(closer: Closer, c: Counter) {
    (closer.Test? || closer.Arm? || closer.Armed? || closer.Parked?) && closer.c == c
  }

  /** `run_close` has seen this counter at zero. */
  ghost predicate Past(closer: Closer, c: Counter) {
    !closer.Unborn? && !Draining(closer, InFlight) && (c.InFlight? || !Draining(closer, Owned))
  }

  ghost predicate Unheld(s: State, c: Counter) {
    forall t <- s.threads :: c !in s.threads[t].guards
  }

  ghost predicate Drained(s: State) {
    forall c :: Past(s.closer, c) ==> Unheld(s, c)
  }

  lemma ZeroMeansUnheld(s: State, c: Counter)
    requires Counted(s) && DrainOf(s, c).count == 0
    ensures Unheld(s, c)
  {
    forall t | t in s.threads ensures c !in s.threads[t].guards {
      assert c in s.threads[t].guards ==> t in Contributors(s.threads, c);
    }
  }

  /** Only the drain loop itself moves the cleanup past a counter. */
  lemma CleanPast(s: State, fails: bool, c: Counter)
    requires CanClean(s) && Past(Clean(s, fails).closer, c)
    ensures Clean(s, fails).threads == s.threads
    ensures Past(s.closer, c) || DrainOf(s, c).count == 0
  {
  }

  lemma DrainedKept(s: State, a: Action)
    requires Drained(s) && Phased(s) && Counted(s) && Enabled(s, a)
    ensures Drained(Apply(s, a))
  {
    hide Apply, Counted, Clean, CloseStep;
    Kinds(s, a);
    var s' := Apply(s, a);
    forall c | Past(s'.closer, c) ensures Unheld(s', c) {
      if a.Cleanup? {
        CleanPast(s, a.fails, c);
        if DrainOf(s, c).count == 0 { ZeroMeansUnheld(s, c); }
      } else if a.Go? && CloseCall(s.threads[a.t].pc) {
        CloseShifts(s, a.t);
        ClosePast(s, a.t, c);
      }
    }
  }

  lemma ClosePast(s: State, t: Tid, c: Counter)
    requires t in s.threads && CloseCall(s.threads[t].pc) && Past(CloseStep(s, t).closer, c)
    ensures Past(s.closer, c)
  {
  }

  // Wakeups: whoever is parked unnotified still has a reason to wait.

  ghost predicate NotifyPending(s: State, c: Counter) {
    exists t <- s.threads :: s.threads[t].pc == Notify(c)
  }

  ghost predicate ClosingPending(s: State) {
    exists t <- s.threads :: s.threads[t].pc.NotifyClosing?
  }

  ghost predicate DrainAwake(s: State) {
    && (s.closer.Armed? || s.closer.Parked? ==> s.closer.gen <= DrainOf(s, s.closer.c).gen)
    && (s.closer.Parked? && s.closer.gen == DrainOf(s, s.closer.c).gen ==>
          DrainOf(s, s.closer.c).count != 0 || NotifyPending(s, s.closer.c))
  }

  lemma AdmissionDrainAwake(s: State, t: Tid)
    requires DrainAwake(s) && t in s.threads && Admission(s.threads[t].pc) && Counted(s)
    ensures DrainAwake(AdmissionStep(s, t))
  {
    var s' := AdmissionStep(s, t);
    if s.closer.Parked? && NotifyPending(s, s.closer.c) {
      var u :| u in s.threads && s.threads[u].pc == Notify(s.closer.c);
      assert u != t ==> s'.threads[u].pc == Notify(s.closer.c);
    }
    assert s'.threads[t].pc.Notify? ==> NotifyPending(s', s'.threads[t].pc.c);
  }

  lemma DropDrainAwake(s: State, t: Tid, c: Counter)
    requires DrainAwake(s) && Enabled(s, Drop(t, c))
    ensures DrainAwake(Apply(s, Drop(t, c)))
  {
    var s' := Apply(s, Drop(t, c));
    if s.closer.Parked? && NotifyPending(s, s.closer.c) {
      var u :| u in s.threads && s.threads[u].pc == Notify(s.closer.c);
      assert s'.threads[u].pc == Notify(s.closer.c);
    }
    assert s'.threads[t].pc.Notify? ==> NotifyPending(s', c);
  }

  lemma CleanDrainAwake(s: State, fails: bool)
    requires DrainAwake(s) && CanClean(s)
    ensures DrainAwake(Clean(s, fails))
  {
  }

  lemma OtherDrainAwake(s: State, s': State, t: Tid)
    requires DrainAwake(s) && Moves(s, s', t) && (t in s.threads ==> !s.threads[t].pc.Notify?)
    requires s'.inFlight == s.inFlight && s'.owned == s.owned && (s'.closer == s.closer || s'.closer.Test?)
    ensures DrainAwake(s')
  {
    if s.closer.Parked? && NotifyPending(s, s.closer.c) {
      var u :| u in s.threads && s.threads[u].pc == Notify(s.closer.c);
      assert s'.threads[u].pc == Notify(s.closer.c);
    }
  }

  lemma CloserAfterClose(s: State, t: Tid)
    requires t in s.threads && CloseCall(s.threads[t].pc)
    ensures CloseStep(s, t).closer == s.closer || CloseStep(s, t).closer.Test?
  {
  }

  lemma DrainAwakeKept(s: State, a: Action)
    requires DrainAwake(s) && Counted(s) && Enabled(s, a)
    ensures DrainAwake(Apply(s, a))
  {
    hide DrainAwake, Counted, AdmissionStep, CloseStep, LifeStep, KeyStep, Clean;
    match a
    case Cleanup(fails) => CleanDrainAwake(s, fails);
    case Drop(t, c) => DropDrainAwake(s, t, c);
    case Spawn(t) => OtherDrainAwake(s, Apply(s, a), t);
    case Enter(t, _) => OtherDrainAwake(s, Apply(s, a), t);
    case Cancel(t) => OtherDrainAwake(s, Apply(s, a), t);
    case Go(t) =>
      var pc := s.threads[t].pc;
      if Admission(pc) { AdmissionDrainAwake(s, t); }
      else {
        if CloseCall(pc) { CloseShifts(s, t); CloserAfterClose(s, t); }
        else if LifeWait(pc) { LifeShifts(s, t); LifeQuiet(s, t); }
        else { KeyShifts(s, t); KeyQuiet(s, t); }
        OtherDrainAwake(s, Apply(s, a), t);
      }
  }

  ghost predicate CallerAwake(s: State, pc: Pc) {
    && (pc.ReportArmed? || pc.ReportParked? ==> pc.gen <= s.reportGen)
    && (pc.ReportParked? && pc.gen == s.reportGen ==> !s.closer.Finished?)
    && (pc.LifeArmed? || pc.LifeParked? ==> pc.gen <= s.lifeGen)
    && (pc.LifeParked? && pc.gen == s.lifeGen ==>
          || s.lifecycle != pc.want
          || (pc.want.Closing? && ClosingPending(s))
          || (pc.want.Closed? && s.closer.NotifyClosed?))
  }

  ghost predicate CallersAwake(s: State) {
    forall t <- s.threads :: CallerAwake(s, s.threads[t].pc)
  }

  lemma QuietCallersAwake(s: State, s': State, t: Tid)
    requires CallersAwake(s) && Quiet(s, s', t) && CallerAwake(s, s'.threads[t].pc)
    requires t in s.threads ==> !s.threads[t].pc.NotifyClosing?
    ensures CallersAwake(s')
  {
    if ClosingPending(s) {
      var v :| v in s.threads && s.threads[v].pc.NotifyClosing?;
      assert s'.threads[v].pc.NotifyClosing?;
    }
    forall u | u in s'.threads ensures CallerAwake(s', s'.threads[u].pc) {
      assert u != t ==> CallerAwake(s, s.threads[u].pc);
    }
  }

  lemma CloseCallersAwake(s: State, t: Tid)
    requires CallersAwake(s) && Phased(s) && t in s.threads && CloseCall(s.threads[t].pc)
    ensures CallersAwake(CloseStep(s, t))
  {
    var s' := CloseStep(s, t);
    assert s'.threads[t].pc.NotifyClosing? ==> ClosingPending(s');
    if ClosingPending(s) {
      var v :| v in s.threads && s.threads[v].pc.NotifyClosing?;
      assert v != t ==> s'.threads[v].pc.NotifyClosing?;
    }
    assert CallerInPhase(s, s.threads[t].pc);
    forall u | u in s'.threads ensures CallerAwake(s', s'.threads[u].pc) {
      assert CallerAwake(s, s.threads[u].pc);
    }
  }

  lemma CleanCallersAwake(s: State, fails: bool)
    requires CallersAwake(s) && Phased(s) && CanClean(s)
    ensures CallersAwake(Clean(s, fails))
  {
    var s' := Clean(s, fails);
    assert ClosingPending(s) ==> ClosingPending(s');
    forall u | u in s'.threads ensures CallerAwake(s', s'.threads[u].pc) {
      assert CallerAwake(s, s.threads[u].pc);
    }
  }

  lemma LifeCallerAwake(s: State, t: Tid)
    requires t in s.threads && LifeWait(s.threads[t].pc) && CallerAwake(s, s.threads[t].pc)
    ensures CallerAwake(s, LifeStep(s, t).threads[t].pc)
  {
  }

  lemma OtherCallerAwake(s: State, s': State, t: Tid)
    requires Quiet(s, s', t) && (s'.threads[t].pc.Idle? || !(t in s.threads && LifeWait(s.threads[t].pc)))
    ensures CallerAwake(s, s'.threads[t].pc)
  {
  }

  lemma CallersAwakeKept(s: State, a: Action)
    requires CallersAwake(s) && Phased(s) && Enabled(s, a)
    ensures CallersAwake(Apply(s, a))
  {
    hide CallersAwake, CallerAwake, Phased, AdmissionStep, CloseStep, LifeStep, KeyStep, Clean, Quiet;
    Kinds(s, a);
    if a.Cleanup? { CleanCallersAwake(s, a.fails); }
    else if a.Go? && CloseCall(s.threads[a.t].pc) { CloseCallersAwake(s, a.t); }
    else {
      if a.Go? && LifeWait(s.threads[a.t].pc) {
        assert CallerAwake(s, s.threads[a.t].pc) by { CallerOf(s, a.t); }
        LifeCallerAwake(s, a.t);
      } else {
        OtherCallerAwake(s, Apply(s, a), Actor(a).value);
      }
      QuietCallersAwake(s, Apply(s, a), Actor(a).value);
    }
  }

  lemma CallerOf(s: State, t: Tid)
    requires CallersAwake(s) && t in s.threads
    ensures CallerAwake(s, s.threads[t].pc)
  {
  }
}
