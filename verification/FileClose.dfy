/** `FileResource` of src/python_adapter.rs: operations on one open file against
    any number of closes, as an interleaving of atomic accesses and lock steps. */
module FileClose {
  import opened Errors

  type Tid = nat

  datatype Phase = Commit | Close

  /** The stored outcome of the close: the phases that failed, in order. */
  type CloseResult = seq<Phase>

  datatype Pc =
    | Idle
    // begin_operation: check, take the gate for reading, look for a lost mount, check again
    | OpCheck | OpGate | OpHealth | OpLost | OpRecheck | Running
    // close: forbid operations, start the closing task once, wait for its result
    | StoreClosed | TryStart | Arm | Armed(gen: nat) | Parked(gen: nat) | Returned(result: CloseResult)

  datatype Closer = Unborn | Gate | Flush | SendClose(errors: CloseResult) | StoreResult(errors: CloseResult)
                  | NotifyResult | Unlock | Finished

  datatype State = State(closed: bool, lost: bool, readers: set<Tid>, writer: bool, started: bool,
                         result: Option<CloseResult>, gen: nat, threads: map<Tid, Pc>, closer: Closer, sent: nat)

  const INITIAL := State(false, false, {}, false, false, None, 0, map[], Unborn, 0)

  datatype Action = Spawn(t: Tid) | Operate(t: Tid) | Call(t: Tid) | Go(t: Tid, moved: bool) | Cancel(t: Tid)
                  | Closing(fails: bool)

  predicate CanGo(s: State, pc: Pc) {
    match pc
    case Idle => false
    case OpGate => !s.writer
    case Parked(gen) => gen < s.gen
    case _ => true
  }

  predicate Enabled(s: State, a: Action) {
    match a
    case Spawn(t) => t !in s.threads
    case Operate(t) => t in s.threads && s.threads[t].Idle?
    case Call(t) => t in s.threads && s.threads[t].Idle?
    case Go(t, _) => t in s.threads && CanGo(s, s.threads[t])
    case Cancel(t) => t in s.threads && (s.threads[t].OpGate? || s.threads[t].Parked?)
    case Closing(_) => !s.closer.Unborn? && !s.closer.Finished? && (s.closer.Gate? ==> !s.writer && s.readers == {})
  }

  function At(s: State, t: Tid, pc: Pc): State {
    s.(threads := s.threads[t := pc])
  }

  function Leave(s: State, t: Tid): State {
    At(s.(readers := s.readers - {t}), t, Idle)
  }

  /** `moved` says that the mount's recovery generation differs from the one at open. */
  function Advance(s: State, t: Tid, moved: bool): State
    requires t in s.threads && CanGo(s, s.threads[t])
  {
    match s.threads[t]
    case OpCheck => At(s, t, if s.closed then Idle else OpGate)
    case OpGate => At(s.(readers := s.readers + {t}), t, OpHealth)
    case OpHealth => At(if moved then s.(lost := true) else s, t, OpLost)
    case OpLost => if s.lost then Leave(s, t) else At(s, t, OpRecheck)
    case OpRecheck => if s.closed then Leave(s, t) else At(s, t, Running)
    case Running => Leave(s, t)
    case StoreClosed => At(s.(closed := true), t, TryStart)
    case TryStart => if s.started then At(s, t, Arm) else At(s.(started := true, closer := Gate), t, Arm)
    case Arm => At(s, t, Armed(s.gen))
    case Armed(gen) => At(s, t, if s.result.Some? then Returned(s.result.value) else Parked(gen))
    case Parked(_) => At(s, t, Arm)
    case Returned(_) => At(s, t, Idle)
  }

  function CloserStep(s: State, fails: bool): State
    requires Enabled(s, Closing(fails))
  {
    match s.closer
    case Gate => s.(writer := true, closer := Flush)
    case Flush => s.(closer := SendClose(if fails then [Commit] else []))
    case SendClose(errors) => s.(sent := s.sent + 1, closer := StoreResult(if fails then errors + [Close] else errors))
    case StoreResult(errors) => s.(result := Some(errors), closer := NotifyResult)
    case NotifyResult => s.(gen := s.gen + 1, closer := Unlock)
    case Unlock => s.(writer := false, closer := Finished)
  }

  function Apply(s: State, a: Action): State
    requires Enabled(s, a)
  {
    match a
    case Spawn(t) => At(s, t, Idle)
    case Operate(t) => At(s, t, OpCheck)
    case Call(t) => At(s, t, StoreClosed)
    case Go(t, moved) => Advance(s, t, moved)
    case Cancel(t) => At(s, t, Idle)
    case Closing(fails) => CloserStep(s, fails)
  }

  ghost predicate Legal(s: State, run: seq<Action>)
    decreases |run|
  {
    run != [] ==> Enabled(s, run[0]) && Legal(Apply(s, run[0]), run[1..])
  }

  ghost function After(s: State, run: seq<Action>): State
    requires Legal(s, run)
    decreases |run|
  {
    if run == [] then s else After(Apply(s, run[0]), run[1..])
  }

  ghost predicate Reads(pc: Pc) {
    pc.OpHealth? || pc.OpLost? || pc.OpRecheck? || pc.Running?
  }

  ghost predicate Locked(closer: Closer) {
    !closer.Unborn? && !closer.Gate? && !closer.Finished?
  }

  ghost predicate Sent(closer: Closer) {
    closer.StoreResult? || closer.NotifyResult? || closer.Unlock? || closer.Finished?
  }

  ghost predicate Stored(closer: Closer) {
    closer.NotifyResult? || closer.Unlock? || closer.Finished?
  }

  ghost predicate CallerOk(s: State, t: Tid)
    requires t in s.threads
  {
    var pc := s.threads[t];
    && (t in s.readers <==> Reads(pc))
    && (pc.Running? ==> s.closer.Unborn? || s.closer.Gate?)
    && (pc.TryStart? || pc.Arm? || pc.Armed? || pc.Parked? || pc.Returned? ==> s.closed)
    && (pc.Arm? || pc.Armed? || pc.Parked? || pc.Returned? ==> s.started)
    && (pc.Armed? || pc.Parked? ==> pc.gen <= s.gen)
    && (pc.Parked? && pc.gen == s.gen ==> !s.closer.Unlock? && !s.closer.Finished?)
    && (pc.Returned? ==> s.result == Some(pc.result))
  }

  ghost predicate Shared(s: State) {
    && (s.started <==> !s.closer.Unborn?) && (s.started ==> s.closed)
    && (s.writer <==> Locked(s.closer)) && (s.writer ==> s.readers == {})
    && s.sent == (if Sent(s.closer) then 1 else 0)
    && (s.result.Some? <==> Stored(s.closer))
    && s.readers <= s.threads.Keys
  }

  ghost predicate Inv(s: State) {
    Shared(s) && forall t <- s.threads :: CallerOk(s, t)
  }

  lemma InvInitially()
    ensures Inv(INITIAL)
  {
  }

  lemma GoShared(s: State, t: Tid, moved: bool)
    requires Shared(s) && t in s.threads && CanGo(s, s.threads[t]) && CallerOk(s, t)
    ensures Shared(Advance(s, t, moved)) && Advance(s, t, moved).threads.Keys == s.threads.Keys
  {
  }

  lemma GoSelf(s: State, t: Tid, moved: bool)
    requires Shared(s) && t in s.threads && CanGo(s, s.threads[t]) && CallerOk(s, t)
    ensures CallerOk(Advance(s, t, moved), t)
  {
  }

  /** What a step of caller `t` leaves as it was for another caller. */
  ghost predicate Unnoticed(s: State, s': State, u: Tid)
    requires u in s.threads
  {
    && u in s'.threads && s'.threads[u] == s.threads[u] && (u in s'.readers <==> u in s.readers)
    && (s.closed ==> s'.closed) && (s.started ==> s'.started)
    && s'.gen == s.gen && s'.result == s.result
    && (s'.closer == s.closer || (s.closer.Unborn? && s'.closer.Gate?))
  }

  ghost predicate Operating(pc: Pc) {
    pc.OpCheck? || pc.OpGate? || pc.OpHealth? || pc.OpLost? || pc.OpRecheck? || pc.Running?
  }

  lemma OperationUnnoticed(s: State, t: Tid, moved: bool, u: Tid)
    requires t in s.threads && CanGo(s, s.threads[t]) && u in s.threads && u != t && Operating(s.threads[t])
    ensures Unnoticed(s, Advance(s, t, moved), u)
  {
  }

  lemma CloseUnnoticed(s: State, t: Tid, moved: bool, u: Tid)
    requires (s.started <==> !s.closer.Unborn?) && t in s.threads && CanGo(s, s.threads[t])
    requires u in s.threads && u != t && !Operating(s.threads[t])
    ensures Unnoticed(s, Advance(s, t, moved), u)
  {
  }

  lemma GoOther(s: State, t: Tid, moved: bool, u: Tid)
    requires Shared(s) && t in s.threads && CanGo(s, s.threads[t])
    requires u in s.threads && u != t && CallerOk(s, u)
    ensures u in Advance(s, t, moved).threads && CallerOk(Advance(s, t, moved), u)
  {
    hide Advance, CanGo;
    if Operating(s.threads[t]) { OperationUnnoticed(s, t, moved, u); } else { CloseUnnoticed(s, t, moved, u); }
  }

  lemma GoInv(s: State, t: Tid, moved: bool)
    requires Inv(s) && t in s.threads && CanGo(s, s.threads[t])
    ensures Inv(Advance(s, t, moved))
  {
    hide Shared, CallerOk, Advance, CanGo;
    GoShared(s, t, moved);
    GoSelf(s, t, moved);
    forall u | u in s.threads && u != t ensures u in Advance(s, t, moved).threads && CallerOk(Advance(s, t, moved), u) {
      GoOther(s, t, moved, u);
    }
  }

  lemma ClosingInv(s: State, fails: bool)
    requires Inv(s) && Enabled(s, Closing(fails))
    ensures Inv(CloserStep(s, fails))
  {
    forall u | u in s.threads ensures CallerOk(CloserStep(s, fails), u) { assert CallerOk(s, u); }
  }

  lemma EntryInv(s: State, t: Tid, pc: Pc)
    requires Inv(s) && (t in s.threads ==> !Reads(s.threads[t])) && (pc.Idle? || pc.OpCheck? || pc.StoreClosed?)
    ensures Inv(At(s, t, pc))
  {
    assert t in s.threads ==> CallerOk(s, t);
    forall u | u in s.threads && u != t ensures CallerOk(At(s, t, pc), u) { assert CallerOk(s, u); }
  }

  lemma InvKept(s: State, a: Action)
    requires Inv(s) && Enabled(s, a)
    ensures Inv(Apply(s, a))
  {
    hide Inv, Advance, CloserStep;
    match a
    case Spawn(t) => EntryInv(s, t, Idle);
    case Operate(t) => EntryInv(s, t, OpCheck);
    case Call(t) => EntryInv(s, t, StoreClosed);
    case Go(t, moved) => GoInv(s, t, moved);
    case Cancel(t) => EntryInv(s, t, Idle);
    case Closing(fails) => ClosingInv(s, fails);
  }

  lemma {:induction false} InvAfter(s: State, run: seq<Action>)
    requires Inv(s) && Legal(s, run)
    ensures Inv(After(s, run))
    decreases |run|
  {
    hide Inv;
    if run != [] {
      InvKept(s, run[0]);
      InvAfter(Apply(s, run[0]), run[1..]);
    }
  }

  lemma {:induction false} SentForever(s: State, run: seq<Action>)
    requires Inv(s) && Legal(s, run) && !s.closer.Unborn? && !s.closer.Gate?
    ensures var s' := After(s, run);
      && !s'.closer.Unborn? && !s'.closer.Gate? && s.sent <= s'.sent
      && (s.result.Some? ==> s'.result == s.result)
    decreases |run|
  {
    if run != [] {
      InvKept(s, run[0]);
      SentForever(Apply(s, run[0]), run[1..]);
    }
  }

  /** Over every run: CLOSE is sent at most once, and has been sent when a result is
      stored, whether or not the flush failed; when the closing task holds the
      gate, and ever after, no operation is running and none starts; every
      closer that has returned got the stored result; and no closer stays parked
      once the result has been announced. */
  lemma CloseProtocol(run: seq<Action>, more: seq<Action>)
    requires Legal(INITIAL, run) && Legal(After(INITIAL, run), more)
    ensures var s, s' := After(INITIAL, run), After(After(INITIAL, run), more);
      && s.sent <= 1 && (s.result.Some? ==> s.sent == 1)
      && (Locked(s.closer) || s.closer.Finished? ==> forall t <- s'.threads :: !s'.threads[t].Running?)
      && (forall t <- s.threads, u <- s'.threads ::
            s.threads[t].Returned? && s'.threads[u].Returned? ==> s.threads[t].result == s'.threads[u].result)
      && (s.closer.Finished? ==> forall t <- s.threads :: s.threads[t].Parked? ==> CanGo(s, s.threads[t]))
  {
    InvInitially();
    InvAfter(INITIAL, run);
    var s := After(INITIAL, run);
    InvAfter(s, more);
    var s' := After(s, more);
    assert forall t <- s.threads :: CallerOk(s, t);
    assert forall t <- s'.threads :: CallerOk(s', t);
    if Locked(s.closer) || s.closer.Finished? { SentForever(s, more); }
  }

  // What the result says.

  ghost predicate InPhase(closer: Closer, phase: Phase) {
    if phase.Commit? then closer.Flush? else closer.SendClose?
  }

  /** Somewhere in the run this phase of the closing task failed. */
  ghost predicate Failed(s: State, run: seq<Action>, phase: Phase)
    requires Legal(s, run)
    decreases |run|
  {
    && run != []
    && ((run[0] == Closing(true) && InPhase(s.closer, phase)) || Failed(Apply(s, run[0]), run[1..], phase))
  }

  /** The phases of the run that failed, in the order of the phases. */
  ghost function FailedPhases(s: State, run: seq<Action>): CloseResult
    requires Legal(s, run)
  {
    (if Failed(s, run, Commit) then [Commit] else []) + (if Failed(s, run, Close) then [Close] else [])
  }

  ghost predicate Passed(closer: Closer, phase: Phase) {
    if phase.Commit? then !closer.Unborn? && !closer.Gate? && !closer.Flush? else Sent(closer)
  }

  /** What the closing task has found so far. */
  ghost function Gathered(s: State): CloseResult {
    match s.closer
    case SendClose(errors) => errors
    case StoreResult(errors) => errors
    case _ => if s.result.Some? then s.result.value else []
  }

  /** A caller does not touch the closing task, except to start it. */
  lemma CallerLeavesCloser(s: State, a: Action)
    requires Inv(s) && Enabled(s, a) && !a.Closing?
    ensures var s' := Apply(s, a);
      s'.result == s.result && (s'.closer == s.closer || (s.closer.Unborn? && s'.closer.Gate?))
  {
    hide CallerOk;
  }

  lemma GatheredStep(s: State, a: Action)
    requires Inv(s) && Enabled(s, a)
    ensures Gathered(Apply(s, a)) ==
      Gathered(s) + if a == Closing(true) && s.closer.Flush? then [Commit]
                    else if a == Closing(true) && s.closer.SendClose? then [Close] else []
    ensures forall phase :: Passed(s.closer, phase) ==> Passed(Apply(s, a).closer, phase) && !InPhase(s.closer, phase)
    ensures forall phase :: a.Closing? && InPhase(s.closer, phase) ==> Passed(Apply(s, a).closer, phase)
  {
    if !a.Closing? {
      CallerLeavesCloser(s, a);
      hide Apply, Inv, Enabled;
    } else {
      hide CallerOk, Advance;
    }
  }

  lemma {:induction false} PassedIsOver(s: State, run: seq<Action>, phase: Phase)
    requires Inv(s) && Legal(s, run) && Passed(s.closer, phase)
    ensures !Failed(s, run, phase)
    decreases |run|
  {
    hide Inv, Apply, Enabled, Passed, InPhase;
    if run != [] {
      InvKept(s, run[0]);
      GatheredStep(s, run[0]);
      PassedIsOver(Apply(s, run[0]), run[1..], phase);
    }
  }

  lemma {:induction false} GatheredAfter(s: State, run: seq<Action>)
    requires Inv(s) && Legal(s, run)
    ensures Gathered(After(s, run)) == Gathered(s) + FailedPhases(s, run)
    decreases |run|
  {
    hide Inv, Apply, Enabled, Gathered;
    if run != [] {
      var s1, rest := Apply(s, run[0]), run[1..];
      InvKept(s, run[0]);
      GatheredStep(s, run[0]);
      GatheredAfter(s1, rest);
      if run[0] == Closing(true) && s.closer.Flush? {
        PassedIsOver(s1, rest, Commit);
      } else if run[0] == Closing(true) && s.closer.SendClose? {
        PassedIsOver(s1, rest, Close);
        PassedIsOver(s1, rest, Commit);
      }
    }
  }

  /** Over every run: the stored result, and what every closer returns, is exactly the
      list of the phases that failed, the flush before the CLOSE; so a closer
      returns success if and only if both succeeded. */
  lemma ResultTells(run: seq<Action>)
    requires Legal(INITIAL, run)
    ensures var s := After(INITIAL, run);
      && (s.result.Some? ==> s.result.value == FailedPhases(INITIAL, run))
      && (forall t <- s.threads :: s.threads[t].Returned? ==>
            && s.threads[t].result == FailedPhases(INITIAL, run)
            && (s.threads[t].result == [] <==> !Failed(INITIAL, run, Commit) && !Failed(INITIAL, run, Close)))
  {
    hide Failed;
    InvInitially();
    InvAfter(INITIAL, run);
    GatheredAfter(INITIAL, run);
    var s := After(INITIAL, run);
    forall t | t in s.threads && s.threads[t].Returned? ensures s.result == Some(s.threads[t].result) {
      assert CallerOk(s, t);
    }
  }

  // A close comes to an end.

  ghost predicate Leads(s: State, s': State) {
    exists run: seq<Action> :: Legal(s, run) && After(s, run) == s'
  }

  lemma LeadsNowhere(s: State)
    ensures Leads(s, s)
  {
    assert Legal(s, []) && After(s, []) == s;
  }

  lemma LeadsOn(s: State, s': State, a: Action)
    requires Leads(s, s') && Enabled(s', a)
    ensures Leads(s, Apply(s', a))
  {
    var run :| Legal(s, run) && After(s, run) == s';
    AfterAppend(s, run, a);
  }

  lemma {:induction false} AfterAppend(s: State, run: seq<Action>, a: Action)
    requires Legal(s, run) && Enabled(After(s, run), a)
    ensures Legal(s, run + [a]) && After(s, run + [a]) == Apply(After(s, run), a)
    decreases |run|
  {
    hide Enabled, Apply;
    if run == [] {
      assert ([a])[1..] == [] && [] + [a] == [a];
    } else {
      AfterAppend(Apply(s, run[0]), run[1..], a);
      assert (run + [a])[1..] == run[1..] + [a];
    }
  }

  lemma {:induction false} LeadsInv(s: State, s': State)
    requires Inv(s) && Leads(s, s')
    ensures Inv(s')
  {
    hide Inv;
    var run :| Legal(s, run) && After(s, run) == s';
    InvAfter(s, run);
  }

  /** One operation inside the gate goes on and lets go of it. */
  lemma ReaderLeaves(s0: State, s: State, t: Tid) returns (s': State)
    requires Leads(s0, s) && t in s.threads && Reads(s.threads[t]) && t in s.readers && s.closed
    ensures Leads(s0, s') && s'.readers == s.readers - {t} && s'.closer == s.closer && s'.writer == s.writer
    ensures s'.started == s.started && s'.closed
  {
    hide Leads;
    s' := s;
    if s'.threads[t].OpHealth? {
      LeadsOn(s0, s', Go(t, false));
      s' := Apply(s', Go(t, false));
    }
    if s'.threads[t].OpLost? && !s'.lost {
      LeadsOn(s0, s', Go(t, false));
      s' := Apply(s', Go(t, false));
    }
    LeadsOn(s0, s', Go(t, false));
    s' := Apply(s', Go(t, false));
  }

  lemma {:induction false} ReadersLeave(s0: State, s: State) returns (s': State)
    requires Leads(s0, s) && Inv(s0) && s.started
    ensures Leads(s0, s') && s'.readers == {} && s'.closer == s.closer && s'.started
    decreases |s.readers|
  {
    hide Leads, Apply, Enabled;
    LeadsInv(s0, s);
    s' := s;
    if t :| t in s.readers {
      assert CallerOk(s, t);
      s' := ReaderLeaves(s0, s, t);
      s' := ReadersLeave(s0, s');
    }
  }

  ghost function Distance(closer: Closer): nat {
    match closer
    case Unborn => 0
    case Gate => 6
    case Flush => 5
    case SendClose(_) => 4
    case StoreResult(_) => 3
    case NotifyResult => 2
    case Unlock => 1
    case Finished => 0
  }

  lemma {:induction false} CloserFinishes(s0: State, s: State, fails: bool) returns (s': State)
    requires Leads(s0, s) && Inv(s0) && s.started && (s.closer.Gate? ==> s.readers == {})
    ensures Leads(s0, s') && s'.closer.Finished? && s'.result.Some?
    decreases Distance(s.closer)
  {
    hide Leads;
    LeadsInv(s0, s);
    s' := s;
    if !s.closer.Finished? {
      LeadsOn(s0, s, Closing(fails));
      s' := CloserFinishes(s0, Apply(s, Closing(fails)), fails);
    }
  }

  /** From every state of every run in which a close has begun, the closing task can come to
      its end, and from there every closer to its return, by its own steps alone. */
  lemma CloseCompletes(run: seq<Action>) returns (more: seq<Action>)
    requires Legal(INITIAL, run) && After(INITIAL, run).started
    ensures Legal(After(INITIAL, run), more) && After(After(INITIAL, run), more).closer.Finished?
    ensures After(After(INITIAL, run), more).result.Some?
  {
    var s := After(INITIAL, run);
    InvInitially();
    InvAfter(INITIAL, run);
    LeadsNowhere(s);
    var drained := ReadersLeave(s, s);
    var done := CloserFinishes(s, drained, false);
    more :| Legal(s, more) && After(s, more) == done;
  }

  /** Waiting for the result of the close. */
  ghost predicate Waits(pc: Pc) {
    pc.Arm? || pc.Armed? || pc.Parked?
  }

  lemma CloserReturns(s: State, t: Tid) returns (s': State)
    requires Inv(s) && s.closer.Finished? && t in s.threads && Waits(s.threads[t])
    ensures Leads(s, s') && s' == At(s, t, Returned(s.result.value))
  {
    hide Leads;
    LeadsNowhere(s);
    assert CallerOk(s, t);
    s' := s;
    if s'.threads[t].Parked? {
      LeadsOn(s, s', Go(t, false));
      s' := Apply(s', Go(t, false));
    }
    if s'.threads[t].Arm? {
      LeadsOn(s, s', Go(t, false));
      s' := Apply(s', Go(t, false));
    }
    LeadsOn(s, s', Go(t, false));
    s' := Apply(s', Go(t, false));
  }

  // Operations are admitted while the file is open.

  ghost predicate Entering(pc: Pc) {
    pc.OpCheck? || pc.OpGate? || pc.OpHealth? || pc.OpLost? || pc.OpRecheck?
  }

  /** The caller begins nothing new in this run and is not cancelled. */
  ghost predicate Stays(run: seq<Action>, t: Tid) {
    forall a <- run :: a != Operate(t) && a != Call(t) && a != Cancel(t)
  }

  /** The caller is admitted to the operation, now or later in the run. */
  ghost predicate Operates(s: State, run: seq<Action>, t: Tid)
    requires Legal(s, run)
    decreases |run|
  {
    || (t in s.threads && s.threads[t].Running?)
    || (run != [] && Operates(Apply(s, run[0]), run[1..], t))
  }

  /** The caller makes its last check at a moment when the file is open. */
  ghost predicate FindsOpen(s: State, run: seq<Action>, t: Tid)
    requires Legal(s, run)
    decreases |run|
  {
    && run != []
    && (|| (run[0].Go? && run[0].t == t && s.threads[t].OpRecheck? && !s.closed)
        || FindsOpen(Apply(s, run[0]), run[1..], t))
  }

  lemma StaysOn(run: seq<Action>, t: Tid)
    requires Stays(run, t) && run != []
    ensures Stays(run[1..], t) && run[0] != Operate(t) && run[0] != Call(t) && run[0] != Cancel(t)
  {
    assert run[0] in run && forall a <- run[1..] :: a in run;
  }

  /** Only the caller itself moves. */
  lemma AdvanceMoves(s: State, t: Tid, moved: bool)
    requires t in s.threads && CanGo(s, s.threads[t])
    ensures var s' := Advance(s, t, moved); t in s'.threads && s'.threads == s.threads[t := s'.threads[t]]
  {
  }

  lemma OthersStand(s: State, a: Action, t: Tid)
    requires Enabled(s, a) && t in s.threads && (a.Closing? || a.t != t)
    ensures t in Apply(s, a).threads && Apply(s, a).threads[t] == s.threads[t]
  {
    hide Advance;
    if a.Go? { AdvanceMoves(s, a.t, a.moved); }
  }

  lemma {:induction false} IdleStays(s: State, run: seq<Action>, t: Tid)
    requires Legal(s, run) && Stays(run, t) && t in s.threads && s.threads[t].Idle?
    ensures !Operates(s, run, t) && !FindsOpen(s, run, t)
    decreases |run|
  {
    hide Apply;
    if run != [] {
      StaysOn(run, t);
      OthersStand(s, run[0], t);
      IdleStays(Apply(s, run[0]), run[1..], t);
    }
  }

  lemma {:induction false} FlagsStay(s: State, run: seq<Action>)
    requires Legal(s, run)
    ensures (s.closed ==> After(s, run).closed) && (s.lost ==> After(s, run).lost)
    decreases |run|
  {
    if run != [] { FlagsStay(Apply(s, run[0]), run[1..]); }
  }

  lemma EnteringStep(s: State, t: Tid, moved: bool)
    requires t in s.threads && Entering(s.threads[t]) && CanGo(s, s.threads[t])
    ensures var pc := Advance(s, t, moved).threads[t];
      || Entering(pc) || (pc.Idle? && (s.closed || s.lost)) || (pc.Running? && s.threads[t].OpRecheck? && !s.closed)
    ensures s.threads[t].OpRecheck? && !s.closed ==> Advance(s, t, moved).threads[t].Running?
  {
  }

  /** In every run, an operation that has begun is admitted if and only if its last check
      finds the file open; and one that has returned from a file that is still open
      and not lost was admitted. */
  lemma {:induction false} OperationAdmitted(s: State, run: seq<Action>, t: Tid)
    requires Legal(s, run) && Stays(run, t) && t in s.threads && Entering(s.threads[t])
    ensures Operates(s, run, t) <==> FindsOpen(s, run, t)
    ensures var s' := After(s, run);
      t in s'.threads && (s'.threads[t].Idle? && !s'.closed && !s'.lost ==> Operates(s, run, t))
    decreases |run|
  {
    hide Apply, Advance;
    if run != [] {
      var s1, rest := Apply(s, run[0]), run[1..];
      StaysOn(run, t);
      FlagsStay(s, run);
      if run[0].Go? && run[0].t == t {
        EnteringStep(s, t, run[0].moved);
        AdvanceMoves(s, t, run[0].moved);
        assert s1 == Advance(s, t, run[0].moved) by { GoIsAdvance(s, t, run[0].moved); }
        ThreadsStay(s1, rest, t);
        if Entering(s1.threads[t]) { OperationAdmitted(s1, rest, t); }
        else if s1.threads[t].Idle? { IdleStays(s1, rest, t); }
      } else {
        OthersStand(s, run[0], t);
        OperationAdmitted(s1, rest, t);
      }
    }
  }

  /** Before its test for a lost mount. */
  ghost predicate Untested(pc: Pc) {
    pc.OpCheck? || pc.OpGate? || pc.OpHealth? || pc.OpLost?
  }

  lemma LostStep(s: State, t: Tid, moved: bool)
    requires t in s.threads && Untested(s.threads[t]) && CanGo(s, s.threads[t])
    ensures var s' := Advance(s, t, moved);
      && (s.lost ==> s'.lost && (Untested(s'.threads[t]) || s'.threads[t].Idle?))
      && (s.threads[t].OpHealth? && moved ==> s'.lost && Untested(s'.threads[t]))
  {
  }

  /** In every run, an operation on a file whose open state is lost, or that finds the mount
      to have been recovered since the open, is not admitted. */
  lemma {:induction false} LostIsRefused(s: State, run: seq<Action>, t: Tid)
    requires Legal(s, run) && Stays(run, t) && t in s.threads && Untested(s.threads[t])
    requires s.lost || (run != [] && run[0] == Go(t, true) && s.threads[t].OpHealth?)
    ensures !Operates(s, run, t)
    decreases |run|
  {
    hide Apply, Advance;
    if run != [] {
      var s1, rest := Apply(s, run[0]), run[1..];
      StaysOn(run, t);
      if run[0].Go? && run[0].t == t {
        LostStep(s, t, run[0].moved);
        GoIsAdvance(s, t, run[0].moved);
        AdvanceMoves(s, t, run[0].moved);
        if s1.threads[t].Idle? { IdleStays(s1, rest, t); } else { LostIsRefused(s1, rest, t); }
      } else {
        OthersStand(s, run[0], t);
        LostStays(s, run[0]);
        LostIsRefused(s1, rest, t);
      }
    }
  }

  lemma LostStays(s: State, a: Action)
    requires Enabled(s, a) && s.lost
    ensures Apply(s, a).lost
  {
  }

  lemma GoIsAdvance(s: State, t: Tid, moved: bool)
    requires Enabled(s, Go(t, moved))
    ensures Apply(s, Go(t, moved)) == Advance(s, t, moved)
  {
  }

  lemma {:induction false} ThreadsStay(s: State, run: seq<Action>, t: Tid)
    requires Legal(s, run) && t in s.threads
    ensures t in After(s, run).threads
    decreases |run|
  {
    hide Apply;
    if run != [] {
      assert t in Apply(s, run[0]).threads by { ThreadStays(s, run[0], t); }
      ThreadsStay(Apply(s, run[0]), run[1..], t);
    }
  }

  lemma ThreadStays(s: State, a: Action, t: Tid)
    requires Enabled(s, a) && t in s.threads
    ensures t in Apply(s, a).threads
  {
    hide Advance;
    if a.Go? { AdvanceMoves(s, a.t, a.moved); }
  }
}
