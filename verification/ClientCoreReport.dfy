/** What the callers of `close` are told (src/client_core.rs), and that they are told. */
module ClientCoreReport {
  import opened Errors
  import opened ClientCore
  import opened ClientCoreSafety
  import opened ClientCoreRegistry
  import opened ClientCoreTheorems
  import opened ClientCoreWaits

  /** The failure that this action meets: a resource or the mount could not be closed. */
  ghost function FailureOf(s: State, a: Action): seq<Failure> {
    if a != Cleanup(true) then []
    else match s.closer
      case Hand(rest, _) => if rest == [] then [] else [CloseFailed(rest[0])]
      case Umount(_) => [UmountFailed]
      case _ => []
  }

  /** The failures met in the run, in order. */
  ghost function Failures(s: State, run: seq<Action>): seq<Failure>
    requires Legal(s, run)
    decreases |run|
  {
    if run == [] then [] else FailureOf(s, run[0]) + Failures(Apply(s, run[0]), run[1..])
  }

  /** What the cleanup has gathered so far, and then its report. */
  ghost function Gathered(s: State): seq<Failure> {
    match s.closer
    case Hand(_, errors) => errors
    case Umount(errors) => errors
    case StoreClosed(errors) => errors
    case NotifyClosed(errors) => errors
    case StoreReport(errors) => errors
    case _ => if s.report.Some? then s.report.value else []
  }

  lemma CleanGathers(s: State, fails: bool)
    requires Phased(s) && CanClean(s)
    ensures Gathered(Clean(s, fails)) == Gathered(s) + FailureOf(s, Cleanup(fails))
  {
    hide CallerInPhase;
  }

  lemma CloseGathers(s: State, t: Tid)
    requires Phased(s) && t in s.threads && CloseCall(s.threads[t].pc)
    ensures Gathered(CloseStep(s, t)) == Gathered(s)
  {
    assert CallerInPhase(s, s.threads[t].pc);
  }

  lemma GatheredStep(s: State, a: Action)
    requires Phased(s) && Enabled(s, a)
    ensures Gathered(Apply(s, a)) == Gathered(s) + FailureOf(s, a)
  {
    hide Apply, Clean, CloseStep, AdmissionStep, LifeStep, KeyStep, Phased;
    Kinds(s, a);
    if a.Cleanup? { CleanGathers(s, a.fails); }
    else if a.Go? && CloseCall(s.threads[a.t].pc) { CloseGathers(s, a.t); }
  }

  lemma {:induction false} GatheredAfter(s: State, run: seq<Action>)
    requires Inv(s) && Legal(s, run)
    ensures Gathered(After(s, run)) == Gathered(s) + Failures(s, run)
    decreases |run|
  {
    hide Counted, Starting, Drained, DrainAwake, CallersAwake, Keyed, Filed, Phased, Apply, Enabled;
    hide FailureOf, Gathered;
    if run != [] {
      InvKept(s, run[0]);
      GatheredStep(s, run[0]);
      GatheredAfter(Apply(s, run[0]), run[1..]);
    }
  }

  /** Over every run, the report, and what every close caller returns, lists exactly the
      failed hand-overs and the failed umount of the run, in order. */
  lemma ReportTells(run: seq<Action>)
    requires Legal(INITIAL, run)
    ensures var s := After(INITIAL, run);
      && (s.report.Some? ==> s.report.value == Failures(INITIAL, run))
      && (forall t <- s.threads :: s.threads[t].pc.Answered? ==> s.threads[t].pc.report == Failures(INITIAL, run))
  {
    hide Failures;
    InvInitially();
    InvAfter(INITIAL, run);
    GatheredAfter(INITIAL, run);
    var s := After(INITIAL, run);
    assert Phased(s);
    forall t | t in s.threads ensures CallerInPhase(s, s.threads[t].pc) { }
  }

  ghost predicate AwaitsReport(pc: Pc) {
    pc.ReportArm? || pc.ReportArmed? || pc.ReportParked?
  }

  /** Once the cleanup is finished, every caller of `close` can return its report by its
      own steps. */
  lemma CloseReturns(s: State, t: Tid) returns (s': State)
    requires Inv(s) && s.closer.Finished? && t in s.threads && AwaitsReport(s.threads[t].pc)
    ensures s.report.Some? && Leads(s, t, s') && s' == At(s, t, Answered(s.report.value))
  {
    hide Leads, Counted, Starting, Drained, DrainAwake, Keyed, Filed;
    LeadsNowhere(s, t);
    assert CallerAwake(s, s.threads[t].pc);
    s' := s;
    if s'.threads[t].pc.ReportParked? {
      LeadsOn(s, t, s', Go(t));
      s' := Apply(s', Go(t));
    }
    if s'.threads[t].pc.ReportArm? {
      LeadsOn(s, t, s', Go(t));
      s' := Apply(s', Go(t));
    }
    LeadsOn(s, t, s', Go(t));
    s' := Apply(s', Go(t));
  }

  ghost function Distance(closer: Closer): nat {
    match closer
    case Hand(rest, _) => 6 + |rest|
    case Umount(_) => 5
    case StoreClosed(_) => 4
    case NotifyClosed(_) => 3
    case StoreReport(_) => 2
    case NotifyReport => 1
    case _ => 0
  }

  lemma CleanNearer(s: State, fails: bool)
    requires Taken(s.closer) && !s.closer.Finished?
    ensures CanClean(s) && Taken(Clean(s, fails).closer) && Distance(Clean(s, fails).closer) < Distance(s.closer)
  {
  }

  /** Past the drains nothing can hold the cleanup up: by its own steps alone, whatever of
      them fails, it comes to its end. */
  lemma {:induction false} CleanupFinishes(s: State, fails: bool) returns (run: seq<Action>)
    requires Taken(s.closer)
    ensures Legal(s, run) && After(s, run).closer.Finished?
    ensures forall a <- run :: a == Cleanup(fails)
    decreases Distance(s.closer)
  {
    hide Clean, CanClean, Distance, Taken;
    run := [];
    if !s.closer.Finished? {
      CleanNearer(s, fails);
      CleanIsEnabled(s, fails);
      var rest := CleanupFinishes(Clean(s, fails), fails);
      run := [Cleanup(fails)] + rest;
      assert run[1..] == rest;
    }
  }

  lemma CleanIsEnabled(s: State, fails: bool)
    requires CanClean(s)
    ensures Enabled(s, Cleanup(fails)) && Apply(s, Cleanup(fails)) == Clean(s, fails)
  {
  }
}
