/** src/client_core.rs with its use by src/python_adapter.rs: admission, draining,
    the resource registry and the one shared close, as an interleaving of the
    atomic accesses and lock sections of any number of callers. */
module ClientCore {
  import opened Errors

  type Tid = nat
  type Key = nat

  datatype Lifecycle = Ready | Closing | Closed

  /** The two drain counters: guarded operations and owned tasks. */
  datatype Counter = InFlight | Owned

  /** A `DrainCounter`; `gen` counts the `notify_waiters` calls so far, and a
      `Notified` future is the generation seen when it was created. */
  datatype Drain = Drain(count: int, gen: nat)

  datatype Failure = CloseFailed(key: Key) | UmountFailed

  /** Where one caller stands; each position is just before the next shared access. */
  datatype Pc =
    | Idle
    // begin_operation and spawn_owned
    | FirstCheck(c: Counter) | Increment(c: Counter) | SecondCheck(c: Counter)
    | Decrement(c: Counter) | Notify(c: Counter)
    // close
    | TryStart | StoreClosing | NotifyClosing | SpawnCloser
    | ReportArm | ReportArmed(gen: nat) | ReportParked(gen: nat) | Answered(report: seq<Failure>)
    // wait_for_lifecycle
    | LifeTest(want: Lifecycle) | LifeArm(want: Lifecycle) | LifeArmed(want: Lifecycle, gen: nat)
    | LifeParked(want: Lifecycle, gen: nat) | LifeSeen(want: Lifecycle)
    // allocate_resource_key and publish_resource, for an adapter file or a bare key
    | KeyCheck(file: bool) | KeyTake(file: bool) | Insert(key: Key) | Publish(key: Key, file: bool)
    | PublishCheck(key: Key, file: bool) | PublishPush(key: Key, file: bool) | Retract(key: Key)
    // unregister_resource, alone or from close_file
    | Unregister(key: Key, file: bool) | Forget(key: Key)

  datatype Thread = Thread(guards: set<Counter>, pc: Pc)

  /** The spawned `run_close`. */
  datatype Closer =
    | Unborn
    | Test(c: Counter) | Arm(c: Counter) | Armed(c: Counter, gen: nat) | Parked(c: Counter, gen: nat)
    | Take | Hand(rest: seq<Key>, errors: seq<Failure>) | Umount(errors: seq<Failure>)
    | StoreClosed(errors: seq<Failure>) | NotifyClosed(errors: seq<Failure>)
    | StoreReport(errors: seq<Failure>) | NotifyReport | Finished

  /** What has happened: keys in order of publication, keys unregistered, keys
      passed to `close_resource` in order, the number of `umount` calls, and the
      keys registered without an adapter file. */
  datatype History = History(published: seq<Key>, removed: set<Key>, handed: seq<Key>, umounts: nat, bare: set<Key>)

  datatype State = State(
    lifecycle: Lifecycle, inFlight: Drain, owned: Drain,
    nextKey: Key, resources: seq<Key>, registry: Option<Tid>, files: set<Key>,
    started: bool, report: Option<seq<Failure>>, reportGen: nat, lifeGen: nat,
    threads: map<Tid, Thread>, closer: Closer, history: History)

  const INITIAL := State(Ready, Drain(0, 0), Drain(0, 0), 1, [], None, {}, false, None, 0, 0, map[], Unborn,
                         History([], {}, [], 0, {}))

  datatype Call =
    | Begin(c: Counter) | Close | Await(want: Lifecycle)
    | Register | OpenFile | CloseFile(key: Key) | Remove(key: Key)

  datatype Action = Spawn(t: Tid) | Enter(t: Tid, call: Call) | Go(t: Tid) | Drop(t: Tid, c: Counter) | Cancel(t: Tid)
                  | Cleanup(fails: bool)

  function DrainOf(s: State, c: Counter): Drain {
    if c.InFlight? then s.inFlight else s.owned
  }

  function SetDrain(s: State, c: Counter, d: Drain): State {
    if c.InFlight? then s.(inFlight := d) else s.(owned := d)
  }

  function At(s: State, t: Tid, pc: Pc): State
    requires t in s.threads
  {
    s.(threads := s.threads[t := s.threads[t].(pc := pc)])
  }

  function Without<T(==)>(xs: seq<T>, x: T): seq<T> {
    if xs == [] then [] else if xs[0] == x then xs[1..] else [xs[0]] + Without(xs[1..], x)
  }

  function Entry(call: Call): Pc {
    match call
    case Begin(c) => FirstCheck(c)
    case Close => TryStart
    case Await(want) => LifeTest(want)
    case Register => KeyCheck(false)
    case OpenFile => KeyCheck(true)
    case CloseFile(key) => Unregister(key, true)
    case Remove(key) => Unregister(key, false)
  }

  /** Adapter opens and closes run as owned tasks; a file is closed with the key
      its open published, and a bare key is removed by whoever registered it. */
  predicate MayEnter(s: State, th: Thread, call: Call) {
    && th.pc.Idle?
    && match call
       case Begin(c) => c !in th.guards
       case OpenFile => Owned in th.guards
       case CloseFile(key) => Owned in th.guards && key in s.history.published
       case Remove(key) => key in s.history.bare
       case _ => true
  }

  /** A caller can take its next step: nobody holds the lock it needs, or it has been notified. */
  predicate CanGo(s: State, pc: Pc) {
    match pc
    case Idle => false
    case ReportParked(gen) => gen < s.reportGen
    case LifeParked(_, gen) => gen < s.lifeGen
    case Publish(_, _) => s.registry.None?
    case Unregister(_, _) => s.registry.None?
    case _ => true
  }

  predicate CanClean(s: State) {
    match s.closer
    case Unborn => false
    case Parked(c, gen) => gen < DrainOf(s, c).gen
    case Take => s.registry.None?
    case Finished => false
    case _ => true
  }

  predicate Enabled(s: State, a: Action) {
    match a
    case Spawn(t) => t !in s.threads
    case Enter(t, call) => t in s.threads && MayEnter(s, s.threads[t], call)
    case Go(t) => t in s.threads && CanGo(s, s.threads[t].pc)
    case Drop(t, c) => t in s.threads && s.threads[t].pc.Idle? && c in s.threads[t].guards
    case Cancel(t) => t in s.threads && (s.threads[t].pc.ReportParked? || s.threads[t].pc.LifeParked?)
    case Cleanup(_) => CanClean(s)
  }

  /** `DrainCounter::decrement`: the caller that reaches zero still has to notify. */
  function Decremented(s: State, t: Tid, guards: set<Counter>, c: Counter): State {
    var d := DrainOf(s, c);
    SetDrain(s, c, d.(count := d.count - 1))
      .(threads := s.threads[t := Thread(guards, if d.count == 1 then Notify(c) else Idle)])
  }

  predicate Admission(pc: Pc) {
    pc.FirstCheck? || pc.Increment? || pc.SecondCheck? || pc.Decrement? || pc.Notify?
  }

  /** `begin_operation` and `spawn_owned`: check, increment, check again. */
  function AdmissionStep(s: State, t: Tid): State
    requires t in s.threads && Admission(s.threads[t].pc)
  {
    var th := s.threads[t];
    var d := DrainOf(s, th.pc.c);
    match th.pc
    case FirstCheck(c) => At(s, t, if s.lifecycle.Ready? then Increment(c) else Idle)
    case Increment(c) => At(SetDrain(s, c, d.(count := d.count + 1)), t, SecondCheck(c))
    case SecondCheck(c) =>
      if s.lifecycle.Ready? then s.(threads := s.threads[t := Thread(th.guards + {c}, Idle)])
      else At(s, t, Decrement(c))
    case Decrement(c) => Decremented(s, t, th.guards, c)
    case Notify(c) => At(SetDrain(s, c, d.(gen := d.gen + 1)), t, Idle)
  }

  predicate CloseCall(pc: Pc) {
    || pc.TryStart? || pc.StoreClosing? || pc.NotifyClosing? || pc.SpawnCloser?
    || pc.ReportArm? || pc.ReportArmed? || pc.ReportParked? || pc.Answered?
  }

  /** `close`: one caller starts the cleanup, every caller waits for its report. */
  function CloseStep(s: State, t: Tid): State
    requires t in s.threads && CloseCall(s.threads[t].pc)
  {
    match s.threads[t].pc
    case TryStart => if s.started then At(s, t, ReportArm) else At(s.(started := true), t, StoreClosing)
    case StoreClosing => At(s.(lifecycle := Closing), t, NotifyClosing)
    case NotifyClosing => At(s.(lifeGen := s.lifeGen + 1), t, SpawnCloser)
    case SpawnCloser => At(s.(closer := Test(InFlight)), t, ReportArm)
    case ReportArm => At(s, t, ReportArmed(s.reportGen))
    case ReportArmed(gen) => At(s, t, if s.report.Some? then Answered(s.report.value) else ReportParked(gen))
    case ReportParked(_) => At(s, t, ReportArm)
    case Answered(_) => At(s, t, Idle)
  }

  predicate LifeWait(pc: Pc) {
    pc.LifeTest? || pc.LifeArm? || pc.LifeArmed? || pc.LifeParked? || pc.LifeSeen?
  }

  /** `wait_for_lifecycle`. */
  function LifeStep(s: State, t: Tid): State
    requires t in s.threads && LifeWait(s.threads[t].pc)
  {
    match s.threads[t].pc
    case LifeTest(want) => At(s, t, if s.lifecycle == want then LifeSeen(want) else LifeArm(want))
    case LifeArm(want) => At(s, t, LifeArmed(want, s.lifeGen))
    case LifeArmed(want, gen) => At(s, t, if s.lifecycle == want then LifeTest(want) else LifeParked(want, gen))
    case LifeParked(want, _) => At(s, t, LifeTest(want))
    case LifeSeen(_) => At(s, t, Idle)
  }

  predicate Keying(pc: Pc) {
    || pc.KeyCheck? || pc.KeyTake? || pc.Insert? || pc.Publish? || pc.PublishCheck? || pc.PublishPush?
    || pc.Retract? || pc.Unregister? || pc.Forget?
  }

  /** Key allocation, publication and removal, with the adapter's file map. */
  function KeyStep(s: State, t: Tid): State
    requires t in s.threads && Keying(s.threads[t].pc)
  {
    match s.threads[t].pc
    case KeyCheck(file) => At(s, t, if s.lifecycle.Ready? then KeyTake(file) else Idle)
    case KeyTake(file) =>
      var key := s.nextKey;
      var s' := s.(nextKey := key + 1);
      if file then At(s', t, Insert(key))
      else At(s'.(history := s.history.(bare := s.history.bare + {key})), t, Publish(key, false))
    case Insert(key) => At(s.(files := s.files + {key}), t, Publish(key, true))
    case Publish(key, file) => At(s.(registry := Some(t)), t, PublishCheck(key, file))
    case PublishCheck(key, file) =>
      if s.lifecycle.Ready? then At(s, t, PublishPush(key, file))
      else At(s.(registry := None), t, if file then Retract(key) else Idle)
    case PublishPush(key, _) =>
      At(s.(registry := None, resources := s.resources + [key],
            history := s.history.(published := s.history.published + [key])), t, Idle)
    case Retract(key) => At(s.(files := s.files - {key}), t, Idle)
    case Unregister(key, file) =>
      var next := if file then Forget(key) else Idle;
      if key in s.resources then
        At(s.(resources := Without(s.resources, key), history := s.history.(removed := s.history.removed + {key})),
           t, next)
      else At(s, t, next)
    case Forget(key) => At(s.(files := s.files - {key}), t, Idle)
  }

  function Advance(s: State, t: Tid): State
    requires t in s.threads && CanGo(s, s.threads[t].pc)
  {
    if Admission(s.threads[t].pc) then AdmissionStep(s, t)
    else if CloseCall(s.threads[t].pc) then CloseStep(s, t)
    else if LifeWait(s.threads[t].pc) then LifeStep(s, t)
    else KeyStep(s, t)
  }

  function Clean(s: State, fails: bool): State
    requires CanClean(s)
  {
    match s.closer
    case Test(c) =>
      s.(closer := if DrainOf(s, c).count != 0 then Arm(c) else if c.InFlight? then Test(Owned) else Take)
    case Arm(c) => s.(closer := Armed(c, DrainOf(s, c).gen))
    case Armed(c, gen) => s.(closer := if DrainOf(s, c).count != 0 then Parked(c, gen) else Test(c))
    case Parked(c, _) => s.(closer := Test(c))
    case Take => s.(closer := Hand(s.resources, []), resources := [])
    case Hand(rest, errors) =>
      if rest == [] then s.(closer := Umount(errors))
      else s.(closer := Hand(rest[1..], if fails then errors + [CloseFailed(rest[0])] else errors),
              files := s.files - {rest[0]}, history := s.history.(handed := s.history.handed + [rest[0]]))
    case Umount(errors) =>
      s.(closer := StoreClosed(if fails then errors + [UmountFailed] else errors),
         history := s.history.(umounts := s.history.umounts + 1))
    case StoreClosed(errors) => s.(closer := NotifyClosed(errors), lifecycle := Closed)
    case NotifyClosed(errors) => s.(closer := StoreReport(errors), lifeGen := s.lifeGen + 1)
    case StoreReport(errors) => s.(closer := NotifyReport, report := Some(errors))
    case NotifyReport => s.(closer := Finished, reportGen := s.reportGen + 1)
  }

  function Apply(s: State, a: Action): State
    requires Enabled(s, a)
  {
    match a
    case Spawn(t) => s.(threads := s.threads[t := Thread({}, Idle)])
    case Enter(t, call) => At(s, t, Entry(call))
    case Go(t) => Advance(s, t)
    case Drop(t, c) => Decremented(s, t, s.threads[t].guards - {c}, c)
    case Cancel(t) => At(s, t, Idle)
    case Cleanup(fails) => Clean(s, fails)
  }

  /** A run: every action is enabled where it happens. */
  ghost predicate Legal(s: State, run: seq<Action>)
    decreases |run|
  {
    run != [] ==> Enabled(s, run[0]) && Legal(Apply(s, run[0]), run[1..])
  }

  ghost function After(s: State, run: seq<Action>): State
    requires Legal(s, run)
    decreases |run|
  {
    if run == [] then s else After(Apply(s, run[0]), run[1..])
  }

  ghost predicate Reachable(s: State) {
    exists run: seq<Action> :: Legal(INITIAL, run) && After(INITIAL, run) == s
  }
}
