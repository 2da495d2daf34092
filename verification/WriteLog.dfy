/** What a call of `write_all_with` (src/fileio.rs) does to the world: the log of
    ranges begun and collected, WRITEs with their replies and COMMITs, the order in
    which these may happen, and what that order implies. */
module WriteLog {
  import opened Errors
  import opened StableStorage

  const WRITE_CONCURRENCY: nat := 8
  const WRITE_VERIFIER := "write_verifier"

  function WriteVerifierChanged(protocol: Protocol): (e: NfsError)
    ensures e.OperationOutcome? && SurfaceUncertain(e) && NamesVerifierChange(e) && e.recovery == VerifyThenResume
    ensures e.context.protocol == protocol
  {
    OperationOutcome(Uncertain, ReplaySensitive, Sent, VerifyThenResume, None,
                     Context(WRITE_VERIFIER, protocol), Rpc("WRITE verifier changed before COMMIT"))
  }

  predicate NamesVerifierChange(e: NfsError) {
    var outcome := SurfaceOutcome(e);
    outcome.Some? && outcome.value.context.operation == WRITE_VERIFIER
  }

  function WriteFailure(e: NfsError, protocol: Protocol, accepted: nat, commit: bool, uncertain: bool): (f: NfsError)
    ensures f == e || (f.OperationOutcome? && f.source == e && f.context.protocol == protocol)
  {
    if accepted == 0 && !commit && !uncertain then e
    else OperationOutcome(Uncertain, ReplaySensitive, Sent, VerifyThenResume, Some(accepted),
                          Context(if commit then "commit" else "write", protocol), e)
  }

  // One WRITE and its reply.

  /** A reply, no authoritative reply to a WRITE that was sent, or any other error. */
  datatype WriteReply =
    | Acknowledged(outcome: WriteOutcome)
    | Unanswered(context: Context, source: NfsError, replay: bool)
    | Refused(error: NfsError)

  ghost predicate Genuine(reply: WriteReply) {
    reply.Unanswered? ==> WireError(reply.source) && SentWithoutReply(reply.source, reply.replay)
  }

  predicate Accepted(reply: WriteReply, size: nat) {
    reply.Acknowledged? && 0 < reply.outcome.count <= size
  }

  /** The error of a WRITE that was not accepted, after `done` bytes of its range. */
  function ErrorOf(reply: WriteReply, done: nat, protocol: Protocol): NfsError {
    match reply
    case Acknowledged(_) => WriteFailure(INVALID_COUNT, protocol, done, true, false)
    case Unanswered(context, source, replay) => Classify(ReplaySensitive, context, source, replay)
    case Refused(error) => error
  }

  const INVALID_COUNT := Rpc("server returned an invalid write count")

  /** `e` tells the caller to verify before resuming, after `completed` acknowledged bytes. */
  ghost predicate Inconclusive(e: NfsError, completed: nat, operation: string, source: NfsError) {
    && e.OperationOutcome? && e.outcome == Uncertain && e.kind == ReplaySensitive && e.transmission == Sent
    && e.recovery == VerifyThenResume && e.completedBytes == Some(completed)
    && e.context.operation == operation && e.source == source
  }

  lemma InconclusiveIsUncertain(e: NfsError, completed: nat, operation: string, source: NfsError)
    requires Inconclusive(e, completed, operation, source)
    ensures SurfaceUncertain(e)
  {
  }

  /** What the caller may learn from the error of a failed WRITE: a count that cannot be
      and a missing reply leave its effect open, a refusal is passed on as it is. */
  ghost predicate Explains(e: NfsError, reply: WriteReply, done: nat) {
    match reply
    case Acknowledged(_) => Inconclusive(e, done, "commit", INVALID_COUNT)
    case Unanswered(context, source, _) =>
      e == OperationOutcome(Uncertain, ReplaySensitive, Sent, VerifyThenResume, None, context, source)
    case Refused(error) => e == error
  }

  lemma FailureExplained(reply: WriteReply, done: nat, protocol: Protocol)
    requires Genuine(reply)
    ensures Explains(ErrorOf(reply, done, protocol), reply, done)
    ensures !reply.Refused? ==> SurfaceUncertain(ErrorOf(reply, done, protocol))
  {
  }

  // The log of a call.

  /** The call begins; a pass over the payload begins with the chunk size the mount then
      gives; a range is begun; one WRITE from `from` to the end of the range begun at
      `start`; the range is collected; the batch is committed. */
  datatype Act =
    | Called
    | Sized(chunk: nat)
    | Admitted(start: nat, end: nat)
    | Wrote(start: nat, from: nat, size: nat, reply: WriteReply)
    | Collected(start: nat)
    | Committed(result: Result<()>)

  /** A pass over the payload: the length of its ranges, zero before it begins, the ranges
      being written, how far admission has come, the bytes of collected ranges, the
      acknowledgement of each byte, the error of each failed range by its start, and how
      the COMMIT ended. */
  datatype Pass = Pass(chunk: nat, active: map<nat, nat>, next: nat, settled: set<nat>,
                       acked: map<nat, WriteOutcome>, errors: map<nat, NfsError>, commit: Option<Result<()>>)

  const FRESH := Pass(0, map[], 0, {}, map[], map[], None)

  /** A chunk size of zero counts as one. */
  function AtLeastOne(n: nat): nat { if n == 0 then 1 else n }

  function RangeEnd(start: nat, chunk: nat, length: nat): nat {
    if start + chunk < length then start + chunk else length
  }

  function Acks(from: nat, outcome: WriteOutcome): map<nat, WriteOutcome> {
    map i | i in Span(from, outcome.count) :: Given(outcome, i)
  }

  /** The reply that covers byte `i`: the same for every byte of one WRITE.  The byte is
      named so that the map above has a term to be instantiated with. */
  function Given(outcome: WriteOutcome, i: nat): WriteOutcome { outcome }

  function Do(p: Pass, act: Act, protocol: Protocol): Pass {
    match act
    case Called => FRESH
    case Sized(chunk) => FRESH.(chunk := AtLeastOne(chunk))
    case Admitted(start, end) => p.(active := p.active[start := end], next := end)
    case Wrote(start, from, size, reply) =>
      if Accepted(reply, size) then p.(acked := p.acked + Acks(from, reply.outcome))
      else p.(errors := p.errors[start := ErrorOf(reply, if start <= from then from - start else 0, protocol)])
    case Collected(start) =>
      if start in p.active && start <= p.active[start] then
        p.(active := p.active - {start}, settled := p.settled + Span(start, p.active[start] - start))
      else p
    case Committed(result) => p.(commit := Some(result))
  }

  function Scan(log: seq<Act>, protocol: Protocol): Pass {
    if log == [] then FRESH else Do(Scan(log[..|log| - 1], protocol), log[|log| - 1], protocol)
  }

  // The discipline.

  ghost predicate VerifierChanged(result: Result<()>) {
    result.Err? && NamesVerifierChange(result.error)
  }

  /** A pass begins with the call, and again only after a verifier change. */
  ghost predicate MayStart(p: Pass) {
    p == FRESH || (p.commit.Some? && VerifierChanged(p.commit.value))
  }

  /** A range begins where the last one ended and is one chunk long, or ends with the
      payload; fewer than eight are active and no collected range has failed. */
  ghost predicate MayAdmit(p: Pass, start: nat, end: nat, length: nat) {
    && p.commit.None? && 0 < p.chunk && start == p.next < length && end == RangeEnd(start, p.chunk, length)
    && |p.active| < WRITE_CONCURRENCY
    && (forall s <- p.errors :: s !in p.settled)
  }

  /** A WRITE asks for the whole unacknowledged rest of one active range without error. */
  ghost predicate MayWrite(p: Pass, start: nat, from: nat, size: nat) {
    && p.commit.None? && start in p.active && start !in p.errors
    && start <= from && 0 < size && from + size == p.active[start]
    && (forall i: nat | start <= i < from :: i in p.acked)
    && (forall i: nat | from <= i < from + size :: i !in p.acked)
  }

  /** A range is collected when it has failed or is acknowledged to its end. */
  ghost predicate MayCollect(p: Pass, start: nat) {
    && p.commit.None? && start in p.active
    && (start in p.errors || forall i: nat | start <= i < p.active[start] :: i in p.acked)
  }

  /** COMMIT: the whole payload was admitted, nothing is active, nothing failed. */
  ghost predicate MayCommit(p: Pass, length: nat) {
    p.commit.None? && p.active == map[] && p.errors == map[] && p.next == length
  }

  ghost predicate Allowed(p: Pass, act: Act, length: nat) {
    match act
    case Called => false
    case Sized(_) => MayStart(p)
    case Admitted(start, end) => MayAdmit(p, start, end, length)
    case Wrote(start, from, size, reply) => MayWrite(p, start, from, size) && Genuine(reply)
    case Collected(start) => MayCollect(p, start)
    case Committed(_) => MayCommit(p, length)
  }

  /** From `n` on, every act was allowed where it happened. */
  ghost predicate Disciplined(log: seq<Act>, n: nat, length: nat, protocol: Protocol) {
    n <= |log| && forall k | n <= k < |log| :: Allowed(Scan(log[..k], protocol), log[k], length)
  }

  lemma DisciplinedPush(log: seq<Act>, n: nat, act: Act, length: nat, protocol: Protocol)
    requires Disciplined(log, n, length, protocol) && Allowed(Scan(log, protocol), act, length)
    ensures Disciplined(log + [act], n, length, protocol)
    ensures Scan(log + [act], protocol) == Do(Scan(log, protocol), act, protocol)
  {
    hide Allowed, Do;
    var more := log + [act];
    assert more[..|log|] == log;
    forall k | n <= k < |more| ensures Allowed(Scan(more[..k], protocol), more[k], length) {
      assert k < |log| ==> more[..k] == log[..k];
    }
  }

  // What the discipline implies at every moment.

  ghost predicate Writing(active: map<nat, nat>, i: nat) {
    exists s <- active :: s <= i < active[s]
  }

  /** Settled, active and not yet admitted bytes split the payload, at most
      eight ranges are active, and these are pairwise disjoint and not empty. */
  ghost predicate Balanced(settled: set<nat>, active: map<nat, nat>, next: nat, length: nat) {
    && next <= length && |active| <= WRITE_CONCURRENCY
    && (forall i: nat :: i < next <==> i in settled || Writing(active, i))
    && (forall i: nat :: !(i in settled && Writing(active, i)))
    && (forall s <- active :: s < active[s] <= next)
    && (forall s <- active, t <- active :: s < t ==> active[s] <= t)
  }

  /** Only admitted ranges are acknowledged or fail, and without failures every
      collected byte is acknowledged. */
  ghost predicate Recorded(p: Pass) {
    && (forall i <- p.acked :: i < p.next)
    && (forall s <- p.errors :: s in p.settled || s in p.active)
    && (p.errors == map[] ==> p.settled <= p.acked.Keys)
  }

  ghost predicate Sound(p: Pass, length: nat) {
    && Balanced(p.settled, p.active, p.next, length) && Recorded(p)
    && (forall s <- p.active :: p.active[s] <= s + p.chunk)
    && (p.commit.Some? ==> p.active == map[] && p.errors == map[] && p.next == length)
  }

  lemma FreshSound(length: nat, chunk: nat)
    ensures Sound(FRESH.(chunk := chunk), length)
  {
  }

  lemma AdmitBalanced(settled: set<nat>, active: map<nat, nat>, next: nat, end: nat, length: nat)
    requires Balanced(settled, active, next, length) && next < end <= length && |active| < WRITE_CONCURRENCY
    ensures next !in active && Balanced(settled, active[next := end], end, length)
  {
    var more := active[next := end];
    forall i: nat ensures Writing(more, i) <==> Writing(active, i) || next <= i < end {
      if Writing(active, i) {
        var s :| s in active && s <= i < active[s];
        assert more[s] == active[s];
      }
      if next <= i < end { assert more[next] == end; }
    }
  }

  lemma WritingWithout(active: map<nat, nat>, s: nat, i: nat)
    requires s in active
    requires forall t <- active, u <- active :: t < u ==> active[t] <= u
    ensures Writing(active - {s}, i) <==> Writing(active, i) && !(s <= i < active[s])
  {
    var rest := active - {s};
    if Writing(active, i) && !(s <= i < active[s]) {
      var t :| t in active && t <= i < active[t];
      assert rest[t] == active[t];
    }
    if Writing(rest, i) {
      var t :| t in rest && t <= i < rest[t];
      assert active[t] == rest[t];
    }
  }

  lemma CollectBalanced(settled: set<nat>, active: map<nat, nat>, next: nat, s: nat, length: nat)
    requires Balanced(settled, active, next, length) && s in active
    ensures Balanced(settled + Span(s, active[s] - s), active - {s}, next, length)
  {
    hide Writing;
    forall i: nat
      ensures Writing(active - {s}, i) <==> Writing(active, i) && !(s <= i < active[s])
      ensures s <= i < active[s] ==> Writing(active, i)
    {
      WritingWithout(active, s, i);
      WritingIn(active, s, i);
    }
  }

  lemma WritingIn(active: map<nat, nat>, s: nat, i: nat)
    requires s in active
    ensures s <= i < active[s] ==> Writing(active, i)
  {
  }

  lemma ActiveRange(p: Pass, s: nat, length: nat)
    requires Sound(p, length) && s in p.active
    ensures s < p.active[s] <= p.next <= length && Span(s, p.active[s] - s) !! p.settled
    ensures forall t <- p.active :: (t < s ==> p.active[t] <= s) && (s < t ==> p.active[s] <= t)
  {
    forall i | i in Span(s, p.active[s] - s) ensures i !in p.settled {
      assert Writing(p.active, i);
    }
  }

  lemma AdmitSound(p: Pass, start: nat, end: nat, length: nat, protocol: Protocol)
    requires Sound(p, length) && MayAdmit(p, start, end, length)
    ensures Sound(Do(p, Admitted(start, end), protocol), length)
  {
    hide Balanced;
    AdmitBalanced(p.settled, p.active, start, end, length);
  }

  lemma AckRecorded(p: Pass, start: nat, from: nat, size: nat, outcome: WriteOutcome, length: nat)
    requires Sound(p, length) && MayWrite(p, start, from, size) && outcome.count <= size
    ensures Recorded(p.(acked := p.acked + Acks(from, outcome)))
  {
    hide Balanced;
    ActiveRange(p, start, length);
  }

  lemma FailureRecorded(p: Pass, start: nat, e: NfsError)
    requires Recorded(p) && start in p.active
    ensures Recorded(p.(errors := p.errors[start := e]))
  {
  }

  lemma WroteSound(p: Pass, act: Act, length: nat, protocol: Protocol)
    requires Sound(p, length) && act.Wrote? && Allowed(p, act, length)
    ensures Sound(Do(p, act, protocol), length)
  {
    hide Balanced, Genuine, Recorded, Acks, ErrorOf;
    if Accepted(act.reply, act.size) {
      AckRecorded(p, act.start, act.from, act.size, act.reply.outcome, length);
    } else {
      FailureRecorded(p, act.start, ErrorOf(act.reply, act.from - act.start, protocol));
    }
  }

  lemma CollectRecorded(p: Pass, start: nat, length: nat)
    requires Sound(p, length) && MayCollect(p, start)
    ensures Recorded(p.(active := p.active - {start}, settled := p.settled + Span(start, p.active[start] - start)))
  {
    hide Balanced;
    ActiveRange(p, start, length);
  }

  lemma CollectSound(p: Pass, start: nat, length: nat, protocol: Protocol)
    requires Sound(p, length) && MayCollect(p, start)
    ensures Sound(Do(p, Collected(start), protocol), length)
  {
    hide Balanced, Recorded, Span;
    ActiveRange(p, start, length);
    CollectBalanced(p.settled, p.active, p.next, start, length);
    CollectRecorded(p, start, length);
  }

  /** Every allowed act keeps the pass sound. */
  lemma DoSound(p: Pass, act: Act, length: nat, protocol: Protocol)
    requires Sound(p, length) && Allowed(p, act, length)
    ensures Sound(Do(p, act, protocol), length)
  {
    hide Balanced, Recorded, MayWrite, Genuine, Acks, ErrorOf, Accepted;
    match act
    case Sized(chunk) => FreshSound(length, AtLeastOne(chunk));
    case Admitted(start, end) => AdmitSound(p, start, end, length, protocol);
    case Wrote(_, _, _, _) => WroteSound(p, act, length, protocol);
    case Collected(start) => CollectSound(p, start, length, protocol);
    case Committed(_) => CommitSound(p, act, length, protocol);
  }

  lemma CommitSound(p: Pass, act: Act, length: nat, protocol: Protocol)
    requires Sound(p, length) && act.Committed? && MayCommit(p, length)
    ensures Sound(Do(p, act, protocol), length)
  {
    hide Balanced;
  }

  /** At every moment of a call the payload is partitioned, with at most eight active
      ranges, none longer than a chunk, and what is acknowledged or failed was admitted. */
  lemma {:induction false} SchedulerInvariant(log: seq<Act>, n: nat, k: nat, length: nat, protocol: Protocol)
    requires n < k <= |log| && log[n].Called? && Disciplined(log, n + 1, length, protocol)
    ensures Sound(Scan(log[..k], protocol), length)
  {
    hide Allowed, Sound, Do;
    assert log[..k][..k - 1] == log[..k - 1];
    if k == n + 1 {
      CalledIsFresh(Scan(log[..n], protocol), protocol);
      FreshSound(length, 0);
    } else {
      SchedulerInvariant(log, n, k - 1, length, protocol);
      DoSound(Scan(log[..k - 1], protocol), log[k - 1], length, protocol);
    }
  }

  lemma CalledIsFresh(p: Pass, protocol: Protocol)
    ensures Do(p, Called, protocol) == FRESH
  {
  }

  // What a failure does to the rest of the call.

  lemma ErrorStays(p: Pass, act: Act, s: nat, length: nat, protocol: Protocol)
    requires s in p.errors && Allowed(p, act, length) && p.commit.None?
    ensures var q := Do(p, act, protocol);
      s in q.errors && q.errors[s] == p.errors[s] && q.commit.None? && p.settled <= q.settled
    ensures s in p.settled ==> !act.Admitted? && !act.Committed?
  {
    hide Genuine, Accepted, ErrorOf;
  }

  /** Once a failed range has been collected nothing is admitted and nothing committed;
      its error stays on record to the end. */
  lemma {:induction false} NothingAfterFailure(log: seq<Act>, j: nat, k: nat, s: nat, length: nat, protocol: Protocol)
    requires j <= k <= |log| && Disciplined(log, j, length, protocol)
    requires var p := Scan(log[..j], protocol); s in p.errors && p.commit.None?
    ensures var p, q := Scan(log[..j], protocol), Scan(log[..k], protocol);
      && s in q.errors && q.errors[s] == p.errors[s] && q.commit.None? && p.settled <= q.settled
      && (s in p.settled ==> forall m | j <= m < k :: !log[m].Admitted? && !log[m].Committed?)
  {
    hide Allowed, Do;
    if j < k {
      NothingAfterFailure(log, j, k - 1, s, length, protocol);
      assert log[..k][..k - 1] == log[..k - 1];
      ErrorStays(Scan(log[..k - 1], protocol), log[k - 1], s, length, protocol);
    }
  }

  lemma AllowedAt(log: seq<Act>, n: nat, k: nat, length: nat, protocol: Protocol)
    requires n <= k < |log| && Disciplined(log, n, length, protocol)
    ensures Allowed(Scan(log[..k], protocol), log[k], length) && Disciplined(log, k + 1, length, protocol)
    ensures Scan(log[..k + 1], protocol) == Do(Scan(log[..k], protocol), log[k], protocol)
  {
    hide Allowed, Do;
    assert log[..k + 1][..k] == log[..k];
  }

  lemma WriteFails(p: Pass, act: Act, length: nat, protocol: Protocol)
    requires act.Wrote? && Allowed(p, act, length) && !Accepted(act.reply, act.size)
    ensures var q := Do(p, act, protocol);
      && act.start in q.errors && act.start <= act.from && q.commit.None?
      && q.errors[act.start] == ErrorOf(act.reply, act.from - act.start, protocol)
  {
    hide Genuine, ErrorOf;
  }

  /** A WRITE of the call that was not accepted is on record at its end. */
  lemma FailedWriteIsRecorded(log: seq<Act>, n: nat, k: nat, length: nat, protocol: Protocol)
    requires n <= k < |log| && Disciplined(log, n, length, protocol)
    requires log[k].Wrote? && !Accepted(log[k].reply, log[k].size)
    ensures var p := Scan(log, protocol);
      && log[k].start in p.errors && log[k].start <= log[k].from
      && p.errors[log[k].start] == ErrorOf(log[k].reply, log[k].from - log[k].start, protocol)
  {
    hide Allowed, Do, Accepted, ErrorOf, Scan, Disciplined;
    AllowedAt(log, n, k, length, protocol);
    assert log[..|log|] == log;
    WriteFails(Scan(log[..k], protocol), log[k], length, protocol);
    NothingAfterFailure(log, k + 1, |log|, log[k].start, length, protocol);
  }

  ghost predicate FailedWrite(act: Act) {
    act.Wrote? && !Accepted(act.reply, act.size)
  }

  /** A WRITE whose effect is open: no reply came, or one with a count that cannot be. */
  ghost predicate Unclear(act: Act) {
    FailedWrite(act) && !act.reply.Refused?
  }

  /** Act `j` is the failed WRITE behind the error `e` of the range begun at `s`. */
  ghost predicate Causes(log: seq<Act>, j: nat, s: nat, e: NfsError, protocol: Protocol) {
    && j < |log| && FailedWrite(log[j]) && log[j].start == s <= log[j].from && Genuine(log[j].reply)
    && e == ErrorOf(log[j].reply, log[j].from - s, protocol)
  }

  lemma CauseStep(p: Pass, act: Act, s: nat, length: nat, protocol: Protocol)
    requires Allowed(p, act, length) && s in Do(p, act, protocol).errors
    requires !(s in p.errors && p.errors[s] == Do(p, act, protocol).errors[s])
    ensures FailedWrite(act) && act.start == s <= act.from && Genuine(act.reply)
    ensures Do(p, act, protocol).errors[s] == ErrorOf(act.reply, act.from - s, protocol)
  {
    hide Genuine, ErrorOf, Accepted;
  }

  /** Every error on record is that of a WRITE of the call. */
  lemma {:induction false} ErrorHasCause(log: seq<Act>, n: nat, k: nat, s: nat, length: nat, protocol: Protocol)
    returns (j: nat)
    requires n < k <= |log| && log[n].Called? && Disciplined(log, n + 1, length, protocol)
    requires s in Scan(log[..k], protocol).errors
    ensures n < j < k && Causes(log, j, s, Scan(log[..k], protocol).errors[s], protocol)
  {
    hide Allowed, Do, Disciplined, ErrorOf, FailedWrite, Genuine;
    assert log[..k][..k - 1] == log[..k - 1];
    if k == n + 1 {
      CalledIsFresh(Scan(log[..n], protocol), protocol);
      assert false;
    } else {
      var p := Scan(log[..k - 1], protocol);
      AllowedAt(log, n + 1, k - 1, length, protocol);
      if s in p.errors && p.errors[s] == Scan(log[..k], protocol).errors[s] {
        j := ErrorHasCause(log, n, k - 1, s, length, protocol);
      } else {
        CauseStep(p, log[k - 1], s, length, protocol);
        j := k - 1;
      }
    }
  }

  // The length of a WRITE.

  /** The chunk size last asked for before act `k`. */
  ghost predicate Asked(log: seq<Act>, n: nat, k: nat, m: nat) {
    n < m < k <= |log| && log[m].Sized? && forall j | m < j < k :: !log[j].Sized?
  }

  lemma ChunkStep(p: Pass, act: Act, length: nat, protocol: Protocol)
    requires Allowed(p, act, length)
    ensures Do(p, act, protocol).chunk == if act.Sized? then AtLeastOne(act.chunk) else p.chunk
  {
    hide Genuine, Accepted, ErrorOf, MayWrite, MayCollect;
  }

  lemma {:induction false} ChunkOnRecord(log: seq<Act>, n: nat, k: nat, length: nat, protocol: Protocol)
    requires n < k <= |log| && log[n].Called? && Disciplined(log, n + 1, length, protocol)
    ensures var chunk := Scan(log[..k], protocol).chunk;
      chunk > 0 ==> exists m: nat :: Asked(log, n, k, m) && chunk == AtLeastOne(log[m].chunk)
  {
    hide Allowed, Do, Disciplined;
    assert log[..k][..k - 1] == log[..k - 1];
    if k == n + 1 {
      CalledIsFresh(Scan(log[..n], protocol), protocol);
    } else {
      ChunkOnRecord(log, n, k - 1, length, protocol);
      AllowedAt(log, n + 1, k - 1, length, protocol);
      ChunkStep(Scan(log[..k - 1], protocol), log[k - 1], length, protocol);
      if log[k - 1].Sized? {
        assert Asked(log, n, k, k - 1);
      } else if m: nat :| Asked(log, n, k - 1, m) && Scan(log[..k - 1], protocol).chunk == AtLeastOne(log[m].chunk) {
        assert Asked(log, n, k, m);
      }
    }
  }

  lemma WriteFits(p: Pass, act: Act, length: nat)
    requires Sound(p, length) && act.Wrote? && Allowed(p, act, length)
    ensures 0 < act.size <= p.chunk && act.from + act.size <= length
  {
    hide Balanced, Recorded;
    ActiveRange(p, act.start, length);
  }

  /** No WRITE is longer than the chunk size the mount gave for its pass. */
  lemma WritesFitChunk(log: seq<Act>, n: nat, k: nat, length: nat, protocol: Protocol)
    requires n < k < |log| && log[n].Called? && Disciplined(log, n + 1, length, protocol) && log[k].Wrote?
    ensures log[k].from + log[k].size <= length
    ensures exists m: nat :: Asked(log, n, k, m) && log[k].size <= AtLeastOne(log[m].chunk)
  {
    hide Allowed, Scan, Disciplined, Sound, AtLeastOne;
    SchedulerInvariant(log, n, k, length, protocol);
    AllowedAt(log, n + 1, k, length, protocol);
    WriteFits(Scan(log[..k], protocol), log[k], length);
    ChunkOnRecord(log, n, k, length, protocol);
  }

  // What a replay does to the acknowledgements before it.

  /** Some WRITE of the call was accepted. */
  ghost predicate SomeAccepted(log: seq<Act>, n: nat) {
    exists k | n < k < |log| :: log[k].Wrote? && Accepted(log[k].reply, log[k].size)
  }

  /** Before act `k`, a COMMIT of the call reported a verifier change. */
  ghost predicate Replayed(log: seq<Act>, n: nat, k: nat) {
    exists m | n < m < k && m < |log| :: log[m].Committed? && VerifierChanged(log[m].result)
  }

  lemma CommitStep(p: Pass, act: Act, length: nat, protocol: Protocol)
    requires Allowed(p, act, length)
    ensures var q := Do(p, act, protocol);
      q.commit.Some? ==> q.commit == p.commit || act == Committed(q.commit.value)
  {
    hide Genuine, Accepted, ErrorOf, MayWrite, MayCollect;
  }

  /** The COMMIT a pass stands on is in the log of its call. */
  lemma {:induction false} CommitOnRecord(log: seq<Act>, n: nat, k: nat, length: nat, protocol: Protocol)
    requires n < k <= |log| && log[n].Called? && Disciplined(log, n + 1, length, protocol)
    ensures var p := Scan(log[..k], protocol);
      p.commit.Some? ==> exists m | n < m < k :: log[m] == Committed(p.commit.value)
  {
    hide Allowed, Do, Disciplined;
    assert log[..k][..k - 1] == log[..k - 1];
    if k == n + 1 {
      CalledIsFresh(Scan(log[..n], protocol), protocol);
    } else {
      CommitOnRecord(log, n, k - 1, length, protocol);
      AllowedAt(log, n + 1, k - 1, length, protocol);
      CommitStep(Scan(log[..k - 1], protocol), log[k - 1], length, protocol);
    }
  }

  lemma AckStep(p: Pass, act: Act, length: nat, protocol: Protocol)
    requires p.acked != map[] && Allowed(p, act, length)
    ensures Do(p, act, protocol).acked != map[] || (p.commit.Some? && VerifierChanged(p.commit.value))
  {
    hide Genuine, Accepted, ErrorOf, MayWrite, MayCollect;
    if act.Wrote? && Accepted(act.reply, act.size) {
      var i :| i in p.acked;
      assert i in Do(p, act, protocol).acked;
    }
  }

  /** Acknowledgements stay on record within a pass: they are gone only after a replay. */
  lemma {:induction false} AcksStay(log: seq<Act>, n: nat, j: nat, k: nat, length: nat, protocol: Protocol)
    requires n < j <= k <= |log| && log[n].Called? && Disciplined(log, n + 1, length, protocol)
    requires Scan(log[..j], protocol).acked != map[]
    ensures Scan(log[..k], protocol).acked != map[] || Replayed(log, n, k)
  {
    hide Allowed, Do, Disciplined, VerifierChanged;
    if j < k {
      AcksStay(log, n, j, k - 1, length, protocol);
      AllowedAt(log, n + 1, k - 1, length, protocol);
      var p := Scan(log[..k - 1], protocol);
      if p.acked != map[] {
        AckStep(p, log[k - 1], length, protocol);
        CommitOnRecord(log, n, k - 1, length, protocol);
      }
    }
  }

  lemma AcceptedAcks(p: Pass, act: Act, protocol: Protocol)
    requires act.Wrote? && Accepted(act.reply, act.size)
    ensures Do(p, act, protocol).acked != map[]
  {
    assert act.from in Acks(act.from, act.reply.outcome);
    assert act.from in Do(p, act, protocol).acked;
  }

  /** A call that had a WRITE accepted and ends with no acknowledgement on record
      has been replayed. */
  lemma ForgottenOnlyByReplay(log: seq<Act>, n: nat, length: nat, protocol: Protocol)
    requires n < |log| && log[n].Called? && Disciplined(log, n + 1, length, protocol)
    requires SomeAccepted(log, n) && Scan(log, protocol).acked == map[]
    ensures Replayed(log, n, |log|)
  {
    hide Allowed, Do, Disciplined, Accepted, Scan, Replayed;
    var k :| n < k < |log| && log[k].Wrote? && Accepted(log[k].reply, log[k].size);
    AllowedAt(log, n + 1, k, length, protocol);
    AcceptedAcks(Scan(log[..k], protocol), log[k], protocol);
    AcksStay(log, n, k + 1, |log|, length, protocol);
    assert log[..|log|] == log;
  }
}
