/** src/python_adapter.rs: how the result of a detached operation reaches its
    caller, who may time out or be cancelled at any await.  Two protocols are in
    use: a slot with an acknowledgement, and a plain one-shot channel. */
module Handoff {
  import opened Errors

  type Outcome = Result<nat>

  // cancellation_safe_owned_operation: the owning task keeps the result in a shared
  // slot until the caller acknowledges having taken it.

  datatype Caller = Waiting | Ready | Took(value: Option<Outcome>) | Returned(value: Option<Outcome>) | Gone

  datatype Task = Working | Signalling | Unacknowledged | Reclaiming | Done

  datatype Ack = Pending | Acked | Dropped

  /** `completed` is the operation's result, `reclaimed` what its owner took back, and
      `recorded` the errors passed to the recovery recorder. */
  datatype Slot = Slot(slot: Option<Outcome>, ready: bool, ack: Ack, caller: Caller, task: Task,
                       completed: Option<Outcome>, reclaimed: Option<Outcome>, recorded: seq<NfsError>)

  const FRESH := Slot(None, false, Pending, Waiting, Working, None, None, [])

  /** `record_abandoned_error`: only an error is recorded. */
  function Recorded(outcome: Option<Outcome>): seq<NfsError> {
    if outcome.Some? && outcome.value.Err? then [outcome.value.error] else []
  }

  datatype Action = Complete(r: Outcome) | Signal | Receive | Take | Acknowledge | Abandon | Observe | Reclaim

  predicate Enabled(s: Slot, a: Action) {
    match a
    case Complete(_) => s.task.Working?
    case Signal => s.task.Signalling?
    case Receive => s.caller.Waiting? && s.ready
    case Take => s.caller.Ready?
    case Acknowledge => s.caller.Took?
    case Abandon => s.caller.Waiting?
    case Observe => s.task.Unacknowledged? && !s.ack.Pending?
    case Reclaim => s.task.Reclaiming?
  }

  function Apply(s: Slot, a: Action): Slot
    requires Enabled(s, a)
  {
    match a
    case Complete(r) => s.(slot := Some(r), completed := Some(r), task := Signalling)
    case Signal => s.(ready := true, task := Unacknowledged)
    case Receive => s.(caller := Ready)
    case Take => s.(caller := Took(s.slot), slot := None)
    case Acknowledge => s.(caller := Returned(s.caller.value), ack := Acked)
    case Abandon => s.(caller := Gone, ack := Dropped)
    case Observe => s.(task := if s.ack.Acked? then Done else Reclaiming)
    case Reclaim => s.(reclaimed := s.slot, recorded := s.recorded + Recorded(s.slot), slot := None, task := Done)
  }

  ghost predicate Legal(s: Slot, run: seq<Action>)
    decreases |run|
  {
    run != [] ==> Enabled(s, run[0]) && Legal(Apply(s, run[0]), run[1..])
  }

  ghost function After(s: Slot, run: seq<Action>): Slot
    requires Legal(s, run)
    decreases |run|
  {
    if run == [] then s else After(Apply(s, run[0]), run[1..])
  }

  ghost predicate CallerHas(s: Slot) {
    s.caller.Took? || s.caller.Returned?
  }

  ghost predicate Inv(s: Slot) {
    && (s.completed.Some? <==> !s.task.Working?) && (s.ready <==> !s.task.Working? && !s.task.Signalling?)
    && (s.caller.Ready? || CallerHas(s) ==> s.ready && s.completed.Some?)
    && (s.ack.Acked? <==> s.caller.Returned?) && (s.ack.Dropped? <==> s.caller.Gone?)
    && (s.task.Reclaiming? ==> s.caller.Gone?)
    && (s.task.Done? ==> s.caller.Returned? || s.caller.Gone?)
    && (CallerHas(s) ==> s.caller.value == s.completed)
    && s.slot == (if CallerHas(s) || s.reclaimed.Some? then None else s.completed)
    && s.reclaimed == (if s.task.Done? && s.caller.Gone? then s.completed else None)
    && s.recorded == Recorded(s.reclaimed)
  }

  lemma {:induction false} InvAfter(s: Slot, run: seq<Action>)
    requires Inv(s) && Legal(s, run)
    ensures Inv(After(s, run))
    decreases |run|
  {
    if run != [] { InvAfter(Apply(s, run[0]), run[1..]); }
  }

  /** Over every interleaving the result is taken at most once, by the caller or
      by its owner; once the owner is done it has been taken exactly once, and the
      caller never finds the slot empty.  So an error is returned or recorded, once,
      and never both; a success is never recorded. */
  lemma TakenExactlyOnce(run: seq<Action>)
    requires Legal(FRESH, run)
    ensures var s := After(FRESH, run);
      && !(CallerHas(s) && s.reclaimed.Some?)
      && (CallerHas(s) ==> s.caller.value.Some? && s.caller.value == s.completed && s.recorded == [])
      && (s.reclaimed.Some? ==> s.reclaimed == s.completed)
      && (s.task.Done? ==> s.completed.Some? && (CallerHas(s) != s.reclaimed.Some?))
      && (s.task.Done? && s.completed.value.Err? ==>
            s.recorded == if CallerHas(s) then [] else [s.completed.value.error])
      && (s.completed.Some? && s.completed.value.Ok? ==> s.recorded == [])
  {
    InvAfter(FRESH, run);
  }

  // cancellation_safe_file_operation, open and close: the result itself travels
  // through the channel, and only a refused send comes back to the owner.

  datatype Receiver = Listening | Received(value: Outcome) | Closed

  datatype Channel = Channel(queued: Option<Outcome>, receiver: Receiver, completed: Option<Outcome>,
                             reclaimed: Option<Outcome>, recorded: seq<NfsError>)

  const OPEN := Channel(None, Listening, None, None, [])

  datatype Move = Send(r: Outcome) | Collect | Cancel

  predicate CanMove(c: Channel, m: Move) {
    match m
    case Send(_) => c.completed.None?
    case Collect => c.receiver.Listening? && c.queued.Some?
    case Cancel => c.receiver.Listening?
  }

  function Moved(c: Channel, m: Move): Channel
    requires CanMove(c, m)
  {
    match m
    case Send(r) =>
      if c.receiver.Closed? then
        c.(completed := Some(r), reclaimed := Some(r), recorded := c.recorded + Recorded(Some(r)))
      else c.(completed := Some(r), queued := Some(r))
    case Collect => c.(receiver := Received(c.queued.value), queued := None)
    case Cancel => c.(receiver := Closed, queued := None)
  }

  ghost predicate Plays(c: Channel, moves: seq<Move>)
    decreases |moves|
  {
    moves != [] ==> CanMove(c, moves[0]) && Plays(Moved(c, moves[0]), moves[1..])
  }

  ghost function Played(c: Channel, moves: seq<Move>): Channel
    requires Plays(c, moves)
    decreases |moves|
  {
    if moves == [] then c else Played(Moved(c, moves[0]), moves[1..])
  }

  ghost predicate ChannelInv(c: Channel) {
    && (c.receiver.Received? ==> c.completed == Some(c.receiver.value) && c.reclaimed.None?)
    && c.queued == (if c.receiver.Listening? then c.completed else None)
    && (c.reclaimed.Some? ==> c.receiver.Closed? && c.reclaimed == c.completed)
    && c.recorded == Recorded(c.reclaimed) && (c.completed.None? ==> c.reclaimed.None?)
  }

  lemma {:induction false} ChannelInvAfter(c: Channel, moves: seq<Move>)
    requires ChannelInv(c) && Plays(c, moves)
    ensures ChannelInv(Played(c, moves))
    decreases |moves|
  {
    if moves != [] { ChannelInvAfter(Moved(c, moves[0]), moves[1..]); }
  }

  /** Neither returned to the caller nor handed back to the owner. */
  ghost predicate Lost(c: Channel) {
    c.completed.Some? && c.receiver.Closed? && c.reclaimed.None?
  }

  ghost predicate Cancels(moves: seq<Move>) {
    exists j | 0 <= j < |moves| :: moves[j].Cancel?
  }

  /** The caller goes away after the result was sent. */
  ghost predicate CancelsLate(moves: seq<Move>) {
    exists i, j | 0 <= i < j < |moves| :: moves[i].Send? && moves[j].Cancel?
  }

  lemma {:induction false} OnlyOnce(c: Channel, moves: seq<Move>)
    requires Plays(c, moves)
    ensures !c.receiver.Listening? ==> !Cancels(moves)
    ensures c.completed.Some? ==> forall j | 0 <= j < |moves| :: !moves[j].Send?
    decreases |moves|
  {
    if moves != [] {
      OnlyOnce(Moved(c, moves[0]), moves[1..]);
      assert forall j | 0 < j < |moves| :: moves[j] == moves[1..][j - 1];
    }
  }

  lemma Unfold(moves: seq<Move>)
    requires moves != []
    ensures Cancels(moves) <==> moves[0].Cancel? || Cancels(moves[1..])
    ensures CancelsLate(moves) <==> (moves[0].Send? && Cancels(moves[1..])) || CancelsLate(moves[1..])
    ensures CancelsLate(moves[1..]) ==> Cancels(moves[1..])
  {
    var rest := moves[1..];
    assert forall j | 0 <= j < |rest| :: rest[j] == moves[j + 1];
    if j :| 0 <= j < |moves| && moves[j].Cancel? { assert j > 0 ==> rest[j - 1].Cancel?; }
    if i, j :| 0 <= i < j < |moves| && moves[i].Send? && moves[j].Cancel? {
      assert rest[j - 1].Cancel? && (i > 0 ==> rest[i - 1].Send?);
    }
  }

  lemma {:induction false} LostFrom(c: Channel, moves: seq<Move>)
    requires ChannelInv(c) && Plays(c, moves)
    ensures Lost(Played(c, moves)) <==>
      || Lost(c) || (c.queued.Some? && Cancels(moves))
      || (c.completed.None? && c.receiver.Listening? && CancelsLate(moves))
    decreases |moves|
  {
    hide Cancels, CancelsLate;
    OnlyOnce(c, moves);
    if moves == [] {
      NothingCancelled();
    } else {
      Unfold(moves);
      LostFrom(Moved(c, moves[0]), moves[1..]);
      OnlyOnce(Moved(c, moves[0]), moves[1..]);
    }
  }

  lemma NothingCancelled()
    ensures !Cancels([]) && !CancelsLate([])
  {
  }

  /** The channel loses a completed result, error or not, if and only if the schedule
      cancels its caller after the send; it never delivers twice, and an error its
      caller did not get is recorded unless it was lost. */
  lemma LostExactlyWhenCancelledLate(moves: seq<Move>)
    requires Plays(OPEN, moves)
    ensures Lost(Played(OPEN, moves)) <==> exists i, j | 0 <= i < j < |moves| :: moves[i].Send? && moves[j].Cancel?
    ensures var c := Played(OPEN, moves);
      && (c.receiver.Received? ==> c.completed == Some(c.receiver.value) && c.recorded == [])
      && (c.receiver.Closed? && c.completed.Some? && c.completed.value.Err? ==>
            c.recorded == if Lost(c) then [] else [c.completed.value.error])
  {
    ChannelInvAfter(OPEN, moves);
    LostFrom(OPEN, moves);
  }

  /** The slot protocol survives the very schedule on which the channel drops an error. */
  lemma SlotKeepsWhatChannelLoses(e: NfsError)
    ensures var moves := [Send(Err(e)), Cancel]; Plays(OPEN, moves) && Lost(Played(OPEN, moves))
    ensures var run := [Complete(Err(e)), Signal, Abandon, Observe, Reclaim];
      Legal(FRESH, run) && After(FRESH, run).recorded == [e]
  {
    var c1 := Moved(OPEN, Send(Err(e)));
    assert [Send(Err(e)), Cancel][1..] == [Cancel];
    assert Plays(c1, [Cancel]) && Played(c1, [Cancel]) == Moved(c1, Cancel) by { assert ([Cancel])[1..] == []; }
    var run := [Complete(Err(e)), Signal, Abandon, Observe, Reclaim];
    assert run[1..] == [Signal, Abandon, Observe, Reclaim] && run[1..][1..] == [Abandon, Observe, Reclaim]
           && run[1..][1..][1..] == [Observe, Reclaim] && run[1..][1..][1..][1..] == [Reclaim]
           && run[1..][1..][1..][1..][1..] == [];
    var s1 := Apply(FRESH, run[0]);
    var s2 := Apply(s1, Signal);
    var s3 := Apply(s2, Abandon);
    var s4 := Apply(s3, Observe);
    assert Legal(s4, [Reclaim]) && After(s4, [Reclaim]) == Apply(s4, Reclaim) by { assert ([Reclaim])[1..] == []; }
    assert Legal(s3, [Observe, Reclaim]) && After(s3, [Observe, Reclaim]) == Apply(s4, Reclaim);
    assert Legal(s2, [Abandon, Observe, Reclaim]) && After(s2, [Abandon, Observe, Reclaim]) == Apply(s4, Reclaim);
    assert Legal(s1, run[1..]) && After(s1, run[1..]) == Apply(s4, Reclaim);
  }
}
