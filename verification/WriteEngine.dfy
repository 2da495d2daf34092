/** src/fileio.rs, write side: bounded concurrent UNSTABLE writes, one batch
    COMMIT, and replay of the whole payload when the server instance changed.
    Every `.await` is a point where the server and the other chunks may move. */
module WriteEngine {
  import opened Errors
  import opened StableStorage
  import opened WriteLog

  const U64: nat := 0x1_0000_0000_0000_0000
  const U32: nat := 0x1_0000_0000

  /** Acknowledgements still in need of stable storage name the committing instance. */
  ghost predicate Verified(writes: seq<WriteOutcome>, actual: Option<nat>) {
    forall w <- writes :: w.committed.FileSync? || w.verifier.None? || w.verifier == actual
  }

  method VerifyWriteBatch(protocol: Protocol, writes: seq<WriteOutcome>, actual: Option<nat>) returns (r: Result<()>)
    ensures r.Ok? <==> Verified(writes, actual)
    ensures r.Err? ==> r.error == WriteVerifierChanged(protocol)
  {
    for k := 0 to |writes|
      invariant Verified(writes[..k], actual)
    {
      if !writes[k].committed.FileSync? && writes[k].verifier.Some? && writes[k].verifier != actual {
        assert writes[k] in writes;
        return Err(WriteVerifierChanged(protocol));
      }
    }
    assert writes[..|writes|] == writes;
    return Ok(());
  }

  predicate Named(w: WriteOutcome) {
    w.committed.FileSync? || w.verifier.Some?
  }

  /** A COMMIT range that covers the payload; a zero count reaches to the end of the file. */
  predicate Reaches(offset: nat, length: nat, at: nat, count: nat) {
    at <= offset && (count == 0 || offset + length <= at + count)
  }

  lemma SyncSettles(server: Server, p: nat, b: Byte, w: WriteOutcome)
    requires Promised(server, p, b, w) && w.committed.FileSync?
    ensures Settled(server, p, b)
  {
  }

  lemma CommitKeepsVerifier(server: Server, at: nat, count: nat)
    ensures Step(server, CommitEvent(server, at, count)).verifier == server.verifier
  {
  }

  /** The acknowledgement is by an instance between these two. */
  ghost predicate FromBetween(w: WriteOutcome, lo: nat, hi: nat) {
    lo <= hi && (w.verifier.Some? ==> lo <= w.verifier.value <= hi)
  }

  lemma CommitIsLegal(server: Server, at: nat, count: nat, offset: nat, data: seq<Byte>, loud: set<nat>)
    ensures Legal(server, CommitEvent(server, at, count), offset, data, loud)
  {
  }

  /** A COMMIT by the instance that acknowledged a byte makes the byte durable. */
  lemma CommitSettles(written: Server, mid: Server, server: Server, offset: nat, data: seq<Byte>,
                      at: nat, count: nat, i: nat, w: WriteOutcome, loud: set<nat>)
    requires Evolves(written, mid, offset, data, loud)
    requires Evolves(Step(mid, CommitEvent(mid, at, count)), server, offset, data, loud)
    requires i < |data| && offset + i !in loud && Promised(written, offset + i, data[i], w)
    requires w.committed.FileSync? || w.verifier == Some(mid.verifier)
    requires at <= offset + i && (count == 0 || offset + i < at + count)
    ensures Settled(server, offset + i, data[i])
  {
    hide Evolves;
    var flushed := Step(mid, CommitEvent(mid, at, count));
    EvolvesKeepsPromise(written, mid, offset, data, i, w, loud);
    assert Settled(flushed, offset + i, data[i]);
    EvolvesKeepsPromise(flushed, server, offset, data, i, WriteOutcome(1, FileSync, None), loud);
  }

  /** The protocol layer below the engine (`WriteIo` over `Mount`), with the
      server behind it and the log of the calls on it.  Replies, errors, short
      counts, commit levels and the chunk size are arbitrary; `carriesVerifier` says
      whether every reply to COMMIT, and to WRITE short of FILE_SYNC, arrives with a
      verifier, as those of NFSv3 and NFSv4 do; `loud` is where others may write.
      `faults` counts WRITEs that were not accepted and COMMITs that failed.  The log
      grows only here, and each act must be allowed where it happens. */
  class WriteIo {
    var server: Server
    var commits: nat
    var faults: nat
    const protocol: Protocol
    const carriesVerifier: bool
    const loud: set<nat>
    ghost var log: seq<Act>

    constructor (server: Server, protocol: Protocol, carriesVerifier: bool, loud: set<nat>)
      ensures this.server == server && commits == 0 && faults == 0 && log == []
      ensures this.protocol == protocol && this.carriesVerifier == carriesVerifier && this.loud == loud
    {
      this.server, this.commits, this.faults, this.log := server, 0, 0, [];
      this.protocol, this.carriesVerifier, this.loud := protocol, carriesVerifier, loud;
    }

    ghost function Current(): Pass
      reads this
    {
      Scan(log, protocol)
    }

    ghost method Begin()
      modifies this`log
      ensures log == old(log) + [Called]
    {
      log := log + [Called];
    }

    ghost method Admit(start: nat, end: nat, length: nat)
      requires MayAdmit(Current(), start, end, length)
      modifies this`log
      ensures log == old(log) + [Admitted(start, end)]
    {
      log := log + [Admitted(start, end)];
    }

    ghost method Collect(start: nat)
      requires MayCollect(Current(), start)
      modifies this`log
      ensures log == old(log) + [Collected(start)]
    {
      log := log + [Collected(start)];
    }

    /** Everything the server may do on its own between two client actions. */
    method Interfere(offset: nat, data: seq<Byte>)
      modifies this`server
      ensures Evolves(old(server), server, offset, data, loud)
    {
      EvolvesByNothing(server, offset, data, loud);
      var n: nat := *;
      while n > 0
        invariant Evolves(old(server), server, offset, data, loud)
      {
        var e: Event := *;
        if Legal(server, e, offset, data, loud) {
          EvolvesBy(old(server), server, e, offset, data, loud);
          server := Step(server, e);
        }
        n := n - 1;
      }
    }

    /** What the mount now says about its largest WRITE; a pass begins with asking. */
    method WriteChunkSize() returns (n: nat)
      requires MayStart(Current())
      modifies this`log
      ensures n < U32 && log == old(log) + [Sized(n)]
    {
      n := *;
      if n >= U32 { n := 0; }
      log := log + [Sized(n)];
    }

    /** A WRITE that got no acceptable answer; the server may have executed it or not. */
    method Unacknowledged() returns (reply: WriteReply)
      ensures !reply.Acknowledged? && Genuine(reply)
    {
      var context: Context, source: NfsError, replay: bool := *, *, *;
      if {
        case source.Io? && source.transport != Some(NotSent) => reply := Unanswered(context, source, replay);
        case source.Rpc? || source.Xdr? => reply := Unanswered(context, source, replay);
        case replay && source.Nfs4? => reply := Unanswered(context, source, replay);
        case true => reply := Refused(source);
      }
    }

    /** One WRITE of `bytes`, the unacknowledged rest of the range begun at `start`. */
    method WriteUnstable(offset: nat, data: seq<Byte>, ghost start: nat, from: nat, bytes: seq<Byte>)
      returns (reply: WriteReply)
      requires from + |bytes| <= |data| && bytes == data[from..][..|bytes|]
      requires MayWrite(Current(), start, from, |bytes|)
      modifies this`server, this`faults, this`log
      ensures log == old(log) + [Wrote(start, from, |bytes|, reply)] && Genuine(reply)
      ensures Evolves(old(server), server, offset, data, loud)
      ensures faults == old(faults) + if Accepted(reply, |bytes|) then 0 else 1
      ensures Accepted(reply, |bytes|) ==>
        forall i | from <= i < from + reply.outcome.count && offset + i !in loud ::
          Promised(server, offset + i, data[i], reply.outcome)
      ensures reply.Acknowledged? && carriesVerifier ==> Named(reply.outcome)
      ensures reply.Acknowledged? ==> FromBetween(reply.outcome, old(server).verifier, server.verifier)
    {
      hide Evolves;
      Interfere(offset, data);
      EvolvesVerifier(old(server), server, offset, data, loud);
      var failed: bool := *;
      if failed {
        reply := Unacknowledged();
        faults, log := faults + 1, log + [Wrote(start, from, |bytes|, reply)];
        return;
      }
      var n: nat, sync: bool, level: Committed, named: bool := *, *, *, *;
      var w := WriteOutcome(n, if sync then FileSync else if level.FileSync? then DataSync else level,
                            if carriesVerifier || named then Some(server.verifier) else None);
      reply := Acknowledged(w);
      var e := Execute(offset + from, if n <= |bytes| then bytes[..n] else bytes, sync);
      EvolvesBy(old(server), server, e, offset, data, loud);
      if n <= |bytes| {
        forall i | from <= i < from + n ensures Promised(Step(server, e), offset + i, data[i], w) {
          ExecutePromises(server, offset, data, from, bytes, w, sync, i);
        }
      }
      server := Step(server, e);
      if !Accepted(reply, |bytes|) { faults := faults + 1; }
      log := log + [Wrote(start, from, |bytes|, reply)];
      ghost var before := server;
      Interfere(offset, data);
      EvolvesThen(old(server), before, server, offset, data, loud);
      EvolvesVerifier(before, server, offset, data, loud);
      if n <= |bytes| {
        forall i | from <= i < from + n && offset + i !in loud ensures Promised(server, offset + i, data[i], w) {
          EvolvesKeepsPromise(before, server, offset, data, i, w, loud);
        }
      }
    }

    /** `commit_write_batch`: a COMMIT is sent unless every reply was FILE_SYNC,
        and its verifier is compared with every other reply. */
    method CommitBatch(offset: nat, data: seq<Byte>, at: nat, count: nat, writes: seq<WriteOutcome>)
      returns (r: Result<()>)
      requires MayCommit(Current(), |data|) && Reaches(offset, |data|, at, count)
      requires (forall i <- Current().acked :: Current().acked[i] in writes)
      requires (forall w <- writes :: exists i <- Current().acked :: Current().acked[i] == w)
      modifies this
      ensures log == old(log) + [Committed(r)]
      ensures Evolves(old(server), server, offset, data, loud)
      ensures old(commits) <= commits <= old(commits) + 1
      ensures (forall w <- writes :: w.committed.FileSync?) ==> r.Ok? && commits == old(commits)
      ensures r.Err? ==> commits == old(commits) + 1
      ensures faults >= old(faults) && (r.Err? ==> faults > old(faults) || NamesVerifierChange(r.error))
      ensures carriesVerifier && r.Err? && faults == old(faults) && server.verifier == old(server).verifier ==>
        exists w <- writes :: !w.committed.FileSync? && w.verifier.Some? && w.verifier != Some(server.verifier)
      ensures r.Ok? ==>
        forall i, w | 0 <= i < |data| && offset + i !in loud && w in writes
                      && Promised(old(server), offset + i, data[i], w) && Named(w) ::
          Settled(server, offset + i, data[i])
    {
      hide Evolves, Promised, Settled, CommitEvent, Step;
      EvolvesByNothing(server, offset, data, loud);
      if forall w <- writes :: w.committed.FileSync? {
        forall i, w | 0 <= i < |data| && w in writes && Promised(server, offset + i, data[i], w)
          ensures Settled(server, offset + i, data[i])
        {
          SyncSettles(server, offset + i, data[i], w);
        }
        log := log + [Committed(Ok(()))];
        return Ok(());
      }
      Interfere(offset, data);
      commits := commits + 1;
      var failed: bool := *;
      if failed {
        var e: NfsError := *;
        faults, log := faults + 1, log + [Committed(Err(e))];
        return Err(e);
      }
      var named: bool := *;
      var actual := if carriesVerifier || named then Some(server.verifier) else None;
      ghost var before := server;
      EvolvesVerifier(old(server), server, offset, data, loud);
      var e := CommitEvent(server, at, count);
      CommitIsLegal(server, at, count, offset, data, loud);
      EvolvesBy(old(server), server, e, offset, data, loud);
      server := Step(server, e);
      ghost var flushed := server;
      assert flushed.verifier == before.verifier by { CommitKeepsVerifier(before, at, count); }
      Interfere(offset, data);
      EvolvesVerifier(flushed, server, offset, data, loud);
      EvolvesThen(old(server), flushed, server, offset, data, loud);
      r := VerifyWriteBatch(protocol, writes, actual);
      log := log + [Committed(r)];
      if r.Ok? {
        forall i, w | 0 <= i < |data| && offset + i !in loud && w in writes
                      && Promised(old(server), offset + i, data[i], w) && Named(w)
          ensures Settled(server, offset + i, data[i])
        {
          CommitSettles(old(server), before, server, offset, data, at, count, i, w, loud);
        }
      }
    }
  }

  lemma ExecutePromises(s: Server, offset: nat, data: seq<Byte>, from: nat, bytes: seq<Byte>,
                        w: WriteOutcome, sync: bool, i: nat)
    requires from + |bytes| <= |data| && bytes == data[from..][..|bytes|]
    requires from <= i < from + w.count <= from + |bytes|
    requires w.committed.FileSync? == sync && (w.verifier.None? || w.verifier == Some(s.verifier))
    ensures Promised(Step(s, Execute(offset + from, bytes[..w.count], sync)), offset + i, data[i], w)
  {
    var written := bytes[..w.count];
    assert written[i - from] == data[i];
    assert offset + i in Span(offset + from, |written|);
    assert Overlay(offset + from, written)[offset + i] == data[i];
  }

  /** The locals of one suspended `write_chunk_with` call on [start, end). */
  datatype Chunk = Chunk(start: nat, end: nat, done: nat, receipts: seq<WriteOutcome>, error: Option<NfsError>)
  {
    predicate Finished() { error.Some? || start + done == end }
  }

  /** One iteration of the loop in `write_chunk_with`, from one WRITE to its reply. */
  method ResumeChunk(io: WriteIo, offset: nat, data: seq<Byte>, c: Chunk) returns (d: Chunk, ghost reply: WriteReply)
    requires c.start + c.done < c.end <= |data| && c.error.None?
    requires MayWrite(io.Current(), c.start, c.start + c.done, c.end - c.start - c.done)
    modifies io`server, io`faults, io`log
    ensures io.log == old(io.log) + [Wrote(c.start, c.start + c.done, c.end - c.start - c.done, reply)]
    ensures Genuine(reply)
    ensures io.faults == old(io.faults) + if d.error.Some? then 1 else 0
    ensures Evolves(old(io.server), io.server, offset, data, io.loud)
    ensures d.error.None? <==> Accepted(reply, c.end - c.start - c.done)
    ensures d.error.Some? ==> d == c.(error := Some(ErrorOf(reply, c.done, io.protocol)))
    ensures d.error.Some? ==> Explains(d.error.value, reply, c.done)
    ensures d.error.None? ==> d == c.(done := c.done + reply.outcome.count, receipts := c.receipts + [reply.outcome])
    ensures d.error.None? ==> forall i | c.start + c.done <= i < d.start + d.done && offset + i !in io.loud ::
      Promised(io.server, offset + i, data[i], reply.outcome)
    ensures io.carriesVerifier && d.error.None? ==> Named(reply.outcome)
    ensures d.error.None? ==> FromBetween(reply.outcome, old(io.server).verifier, io.server.verifier)
  {
    var from := c.start + c.done;
    var answer := io.WriteUnstable(offset, data, c.start, from, data[from..c.end]);
    reply := answer;
    if !answer.Acknowledged? {
      return c.(error := Some(ErrorOf(answer, c.done, io.protocol))), reply;
    }
    var n := answer.outcome.count;
    if n == 0 || n > c.end - from {
      return c.(error := Some(WriteFailure(INVALID_COUNT, io.protocol, c.done, true, false))), reply;
    }
    return c.(done := c.done + n, receipts := c.receipts + [answer.outcome]), reply;
  }

  lemma {:induction false} SpanSize(at: nat, length: nat)
    ensures |Span(at, length)| == length
  {
    if length > 0 {
      SpanSize(at, length - 1);
      assert Span(at, length) == Span(at, length - 1) + {at + length - 1};
    } else {
      assert Span(at, 0) == {};
    }
  }

  function Ends(active: map<nat, Chunk>): map<nat, nat> {
    map s | s in active :: active[s].end
  }

  lemma EndsSize(active: map<nat, Chunk>)
    ensures |Ends(active)| == |active|
  {
    assert Ends(active).Keys == active.Keys;
  }

  // The locals of a pass against the log.

  /** `w` acknowledged one of these bytes. */
  ghost predicate Behind(w: WriteOutcome, acked: map<nat, WriteOutcome>, lo: nat, hi: nat) {
    exists i: nat :: lo <= i < hi && i in acked && acked[i] == w
  }

  /** The chunk is acknowledged up to `done` and not beyond, by exactly its receipts,
      and knows its error. */
  ghost predicate BookedChunk(c: Chunk, s: nat, acked: map<nat, WriteOutcome>, errors: map<nat, NfsError>) {
    && c.start == s < c.end && s + c.done <= c.end
    && (forall i: nat | s <= i < s + c.done :: i in acked && acked[i] in c.receipts)
    && (forall i: nat | s + c.done <= i < c.end :: i !in acked)
    && (forall w <- c.receipts :: Behind(w, acked, s, s + c.done))
    && c.error == (if s in errors then Some(errors[s]) else None)
  }

  ghost predicate Booked(active: map<nat, Chunk>, acked: map<nat, WriteOutcome>, errors: map<nat, NfsError>) {
    forall s <- active :: BookedChunk(active[s], s, acked, errors)
  }

  ghost predicate Kept(server: Server, offset: nat, data: seq<Byte>, acked: map<nat, WriteOutcome>, loud: set<nat>) {
    forall i <- acked :: i < |data| && (offset + i !in loud ==> Promised(server, offset + i, data[i], acked[i]))
  }

  ghost predicate NamedAcks(acked: map<nat, WriteOutcome>) {
    forall i <- acked :: Named(acked[i])
  }

  /** All acknowledgements are by instances from `lo` on, up to now. */
  ghost predicate Dated(acked: map<nat, WriteOutcome>, lo: nat, hi: nat) {
    lo <= hi && forall i <- acked :: FromBetween(acked[i], lo, hi)
  }

  lemma DatedMore(acked: map<nat, WriteOutcome>, lo: nat, mid: nat, hi: nat, from: nat, outcome: WriteOutcome)
    requires Dated(acked, lo, mid) && mid <= hi
    ensures Dated(acked, lo, hi)
    ensures FromBetween(outcome, mid, hi) ==> Dated(acked + Acks(from, outcome), lo, hi)
  {
  }

  lemma EvolvesKeeps(s: Server, t: Server, offset: nat, data: seq<Byte>, acked: map<nat, WriteOutcome>, loud: set<nat>)
    requires Evolves(s, t, offset, data, loud) && Kept(s, offset, data, acked, loud)
    ensures Kept(t, offset, data, acked, loud)
  {
    forall i | i in acked && offset + i !in loud ensures Promised(t, offset + i, data[i], acked[i]) {
      EvolvesKeepsPromise(s, t, offset, data, i, acked[i], loud);
    }
  }

  /** The locals of one pass of `write_all_with` over the payload. */
  datatype Batch = Batch(chunk: nat, active: map<nat, Chunk>, next: nat, accepted: nat, receipts: seq<WriteOutcome>,
                         failure: Option<(nat, NfsError)>, uncertain: bool)

  function Admit(b: Batch, length: nat): Batch {
    var end := RangeEnd(b.next, b.chunk, length);
    b.(active := b.active[b.next := Chunk(b.next, end, 0, [], None)], next := end)
  }

  function Settle(b: Batch, c: Chunk, offset: nat): Batch {
    var settled := b.(active := b.active - {c.start}, accepted := b.accepted + c.done,
                      receipts := b.receipts + c.receipts);
    if c.error.None? then settled
    else
      var at := offset + c.start;
      settled.(uncertain := b.uncertain || SurfaceUncertain(c.error.value),
               failure := if b.failure.None? || at < b.failure.value.0 then Some((at, c.error.value)) else b.failure)
  }

  /** `accepted` and `receipts` are exactly the acknowledgements of the settled bytes. */
  ghost predicate Tallied(accepted: nat, receipts: seq<WriteOutcome>, acks: map<nat, WriteOutcome>) {
    && accepted == |acks|
    && (forall i <- acks :: acks[i] in receipts)
    && (forall w <- receipts :: exists i <- acks :: acks[i] == w)
  }

  ghost function Within<T>(m: map<nat, T>, bytes: set<nat>): map<nat, T> {
    map i | i in m && i in bytes :: m[i]
  }

  ghost predicate LowestFailure(errors: map<nat, NfsError>, failure: Option<(nat, NfsError)>, offset: nat) {
    if failure.None? then errors == map[]
    else
      && offset <= failure.value.0 && failure.value.0 - offset in errors
      && errors[failure.value.0 - offset] == failure.value.1
      && forall s <- errors :: failure.value.0 <= offset + s
  }

  /** `failure` is the failed range with the lowest offset; `uncertain` forgets no sibling. */
  ghost predicate Diagnosed(failure: Option<(nat, NfsError)>, uncertain: bool, errors: map<nat, NfsError>,
                            offset: nat) {
    && LowestFailure(errors, failure, offset)
    && (uncertain <==> exists s <- errors :: SurfaceUncertain(errors[s]))
  }

  /** The locals say exactly what the log says. */
  ghost predicate Going(b: Batch, p: Pass, offset: nat, length: nat) {
    && Sound(p, length) && p.commit.None? && 0 < p.chunk == b.chunk && p.active == Ends(b.active) && p.next == b.next
    && Booked(b.active, p.acked, p.errors)
    && Tallied(b.accepted, b.receipts, Within(p.acked, p.settled))
    && Diagnosed(b.failure, b.uncertain, Within(p.errors, p.settled), offset)
  }

  lemma StartGoing(chunk: nat, offset: nat, length: nat)
    requires chunk > 0
    ensures Going(Batch(chunk, map[], 0, 0, [], None, false), FRESH.(chunk := chunk), offset, length)
  {
    FreshSound(length, chunk);
    assert Ends(map[]) == map[];
  }

  // Admission.

  lemma AdmitBooked(active: map<nat, Chunk>, acked: map<nat, WriteOutcome>, errors: map<nat, NfsError>,
                    next: nat, end: nat)
    requires Booked(active, acked, errors) && next !in active && next < end
    requires next !in errors && forall i <- acked :: i < next
    ensures Booked(active[next := Chunk(next, end, 0, [], None)], acked, errors)
  {
  }

  lemma NothingAhead(p: Pass, length: nat)
    requires Sound(p, length)
    ensures p.next !in p.errors && p.next !in p.active && p.next <= length && forall i <- p.acked :: i < p.next
  {
  }

  lemma NoFailureYet(b: Batch, errors: map<nat, NfsError>, settled: set<nat>, offset: nat)
    requires Diagnosed(b.failure, b.uncertain, Within(errors, settled), offset) && b.failure.None?
    ensures forall s <- errors :: s !in settled
  {
    assert forall s <- errors :: s in settled ==> s in Within(errors, settled);
  }

  lemma AdmitGoing(b: Batch, p: Pass, offset: nat, length: nat, protocol: Protocol)
    requires Going(b, p, offset, length) && b.failure.None? && b.next < length && |b.active| < WRITE_CONCURRENCY
    ensures var end := RangeEnd(b.next, b.chunk, length);
      && MayAdmit(p, b.next, end, length)
      && Going(Admit(b, length), Do(p, Admitted(b.next, end), protocol), offset, length)
      && Do(p, Admitted(b.next, end), protocol).acked == p.acked
  {
    hide Sound, Tallied, Booked, Diagnosed;
    var end := RangeEnd(b.next, b.chunk, length);
    EndsSize(b.active);
    NothingAhead(p, length);
    NoFailureYet(b, p.errors, p.settled, offset);
    DoSound(p, Admitted(b.next, end), length, protocol);
    AdmitBooked(b.active, p.acked, p.errors, b.next, end);
    assert Ends(Admit(b, length).active) == Ends(b.active)[b.next := end];
  }

  // One WRITE.

  lemma MayResume(b: Batch, s: nat, p: Pass, offset: nat, length: nat)
    requires Going(b, p, offset, length) && s in b.active && !b.active[s].Finished()
    ensures var c := b.active[s];
      && c.start == s && s + c.done < c.end <= length && c.error.None?
      && MayWrite(p, s, s + c.done, c.end - s - c.done)
  {
    hide Sound, Booked, Tallied, Diagnosed;
    assert p.active[s] == b.active[s].end;
    ActiveRange(p, s, length);
    BookedAt(b.active, p.acked, p.errors, s);
  }

  lemma BookedAt(active: map<nat, Chunk>, acked: map<nat, WriteOutcome>, errors: map<nat, NfsError>, s: nat)
    requires Booked(active, acked, errors) && s in active
    ensures active[s].start == s < active[s].end && s + active[s].done <= active[s].end
    ensures forall i: nat | s <= i < s + active[s].done :: i in acked
    ensures forall i: nat | s + active[s].done <= i < active[s].end :: i !in acked
    ensures active[s].error == (if s in errors then Some(errors[s]) else None)
  {
  }

  lemma ResumeBooked(active: map<nat, Chunk>, acked: map<nat, WriteOutcome>, errors: map<nat, NfsError>,
                     c: Chunk, outcome: WriteOutcome)
    requires Booked(active, acked, errors) && c.start in active && active[c.start] == c
    requires forall s <- active :: (s < c.start ==> active[s].end <= c.start) && (c.start < s ==> c.end <= s)
    requires 0 < outcome.count <= c.end - c.start - c.done
    ensures var d := c.(done := c.done + outcome.count, receipts := c.receipts + [outcome]);
      Booked(active[c.start := d], acked + Acks(c.start + c.done, outcome), errors)
  {
    hide BookedChunk, Acks;
    var d := c.(done := c.done + outcome.count, receipts := c.receipts + [outcome]);
    ChunkGrows(c, acked, errors, outcome);
    forall s | s in active && s != c.start
      ensures BookedChunk(active[s], s, acked + Acks(c.start + c.done, outcome), errors)
    {
      ChunkUntouched(active[s], s, acked, errors, c, outcome);
    }
  }

  lemma ChunkGrows(c: Chunk, acked: map<nat, WriteOutcome>, errors: map<nat, NfsError>, outcome: WriteOutcome)
    requires BookedChunk(c, c.start, acked, errors) && 0 < outcome.count <= c.end - c.start - c.done
    ensures var d := c.(done := c.done + outcome.count, receipts := c.receipts + [outcome]);
      BookedChunk(d, c.start, acked + Acks(c.start + c.done, outcome), errors)
  {
    hide Behind;
    var from := c.start + c.done;
    forall w | w in c.receipts ensures Behind(w, acked + Acks(from, outcome), c.start, from + outcome.count) {
      BehindStays(w, acked, Acks(from, outcome), c.start, from, from + outcome.count);
    }
    NewlyBehind(outcome, acked, c.start, from);
  }

  lemma BehindStays(w: WriteOutcome, acked: map<nat, WriteOutcome>, gained: map<nat, WriteOutcome>,
                    lo: nat, hi: nat, higher: nat)
    requires Behind(w, acked, lo, hi) && hi <= higher && forall i <- gained :: i < lo || hi <= i
    ensures Behind(w, acked + gained, lo, higher)
  {
    var i: nat :| lo <= i < hi && i in acked && acked[i] == w;
    assert (acked + gained)[i] == w;
  }

  lemma NewlyBehind(outcome: WriteOutcome, acked: map<nat, WriteOutcome>, lo: nat, from: nat)
    requires lo <= from && 0 < outcome.count
    ensures Behind(outcome, acked + Acks(from, outcome), lo, from + outcome.count)
  {
    assert from in Acks(from, outcome) && (acked + Acks(from, outcome))[from] == outcome;
  }

  lemma ChunkUntouched(other: Chunk, s: nat, acked: map<nat, WriteOutcome>, errors: map<nat, NfsError>,
                       c: Chunk, outcome: WriteOutcome)
    requires BookedChunk(other, s, acked, errors) && (other.end <= c.start || c.end <= s)
    requires outcome.count <= c.end - c.start - c.done
    ensures BookedChunk(other, s, acked + Acks(c.start + c.done, outcome), errors)
  {
    hide Behind;
    var gained := Acks(c.start + c.done, outcome);
    forall w | w in other.receipts ensures Behind(w, acked + gained, s, s + other.done) {
      BehindStays(w, acked, gained, s, s + other.done, s + other.done);
    }
  }

  lemma FailBooked(active: map<nat, Chunk>, acked: map<nat, WriteOutcome>, errors: map<nat, NfsError>,
                   c: Chunk, e: NfsError)
    requires Booked(active, acked, errors) && c.start in active && active[c.start] == c
    ensures Booked(active[c.start := c.(error := Some(e))], acked, errors[c.start := e])
  {
    hide Behind;
  }

  lemma ActiveApart(b: Batch, p: Pass, s: nat, length: nat)
    requires Sound(p, length) && p.active == Ends(b.active) && s in b.active
    ensures s < b.active[s].end <= p.next && Span(s, b.active[s].end - s) !! p.settled
    ensures forall t <- b.active :: (t < s ==> b.active[t].end <= s) && (s < t ==> b.active[s].end <= t)
  {
    hide Sound;
    ActiveRange(p, s, length);
    assert p.active[s] == b.active[s].end;
    forall t | t in b.active ensures (t < s ==> b.active[t].end <= s) && (s < t ==> b.active[s].end <= t) {
      assert p.active[t] == b.active[t].end;
    }
  }

  lemma WithinUnchanged<T>(m: map<nat, T>, more: map<nat, T>, settled: set<nat>)
    requires more.Keys !! settled
    ensures Within(m + more, settled) == Within(m, settled)
  {
  }

  lemma ResumeGoing(b: Batch, c: Chunk, d: Chunk, reply: WriteReply, p: Pass, offset: nat, length: nat,
                    protocol: Protocol)
    requires Going(b, p, offset, length) && c.start in b.active && b.active[c.start] == c && !c.Finished()
    requires Genuine(reply) && c.start + c.done < c.end
    requires var size := c.end - c.start - c.done;
      d == if Accepted(reply, size)
           then c.(done := c.done + reply.outcome.count, receipts := c.receipts + [reply.outcome])
           else c.(error := Some(ErrorOf(reply, c.done, protocol)))
    ensures var q := Do(p, Wrote(c.start, c.start + c.done, c.end - c.start - c.done, reply), protocol);
      Going(b.(active := b.active[c.start := d]), q, offset, length)
  {
    hide Sound, Tallied, Booked, Diagnosed, Genuine, ErrorOf, MayWrite, Acks, Within;
    MayResume(b, c.start, p, offset, length);
    var size := c.end - c.start - c.done;
    DoSound(p, Wrote(c.start, c.start + c.done, size, reply), length, protocol);
    ActiveApart(b, p, c.start, length);
    assert Ends(b.active[c.start := d]) == Ends(b.active);
    if Accepted(reply, size) {
      ResumeBooked(b.active, p.acked, p.errors, c, reply.outcome);
      AcksUnsettled(c, reply.outcome, p.settled);
      WithinUnchanged(p.acked, Acks(c.start + c.done, reply.outcome), p.settled);
    } else {
      var e := ErrorOf(reply, c.done, protocol);
      FailBooked(b.active, p.acked, p.errors, c, e);
      assert c.start in Span(c.start, c.end - c.start);
      assert p.errors[c.start := e] == p.errors + map[c.start := e];
      WithinUnchanged(p.errors, map[c.start := e], p.settled);
    }
  }

  lemma AcksUnsettled(c: Chunk, outcome: WriteOutcome, settled: set<nat>)
    requires c.start + c.done <= c.end && outcome.count <= c.end - c.start - c.done
    requires Span(c.start, c.end - c.start) !! settled
    ensures Acks(c.start + c.done, outcome).Keys !! settled
  {
    assert Acks(c.start + c.done, outcome).Keys <= Span(c.start, c.end - c.start);
  }

  ghost function Unfinished(active: map<nat, Chunk>): set<nat> {
    set s | s in active && !active[s].Finished()
  }

  /** Some chunk has failed, collected or not. */
  ghost predicate Faulted(b: Batch) {
    b.failure.Some? || exists s <- b.active :: b.active[s].error.Some?
  }

  /** What both steps of the scheduler keep about the world and the log. */
  ghost predicate Tracked(io: WriteIo, n: nat, offset: nat, data: seq<Byte>, b: Batch)
    reads io
  {
    && Disciplined(io.log, n, |data|, io.protocol)
    && Going(b, io.Current(), offset, |data|)
    && Kept(io.server, offset, data, io.Current().acked, io.loud)
    && (io.carriesVerifier ==> NamedAcks(io.Current().acked))
  }

  lemma KeptMore(server: Server, offset: nat, data: seq<Byte>, acked: map<nat, WriteOutcome>,
                 from: nat, outcome: WriteOutcome, loud: set<nat>)
    requires Kept(server, offset, data, acked, loud) && from + outcome.count <= |data|
    requires forall i | from <= i < from + outcome.count && offset + i !in loud ::
      Promised(server, offset + i, data[i], outcome)
    ensures Kept(server, offset, data, acked + Acks(from, outcome), loud)
  {
    hide Promised;
  }

  /** One WRITE of one active chunk, with its bookkeeping. */
  method ResumeOne(io: WriteIo, offset: nat, data: seq<Byte>, b: Batch, start: nat, ghost n: nat, ghost lo: nat)
    returns (b': Batch)
    requires Tracked(io, n, offset, data, b) && start in b.active && !b.active[start].Finished()
    requires Dated(io.Current().acked, lo, io.server.verifier)
    modifies io`server, io`faults, io`log
    ensures old(io.log) <= io.log && Evolves(old(io.server), io.server, offset, data, io.loud)
    ensures Tracked(io, n, offset, data, b') && Dated(io.Current().acked, lo, io.server.verifier)
    ensures io.faults >= old(io.faults) && (Faulted(b') ==> Faulted(b) || io.faults > old(io.faults))
    ensures b' == b.(active := b'.active) && start in b'.active && b'.active == b.active[start := b'.active[start]]
    ensures var was, now := old(io.Current().acked), io.Current().acked;
      || Span(0, |data|) - now.Keys < Span(0, |data|) - was.Keys
      || (now == was && Unfinished(b'.active) < Unfinished(b.active))
  {
    hide Going, Evolves, Promised, Disciplined, Scan, Kept, MayWrite, Genuine, ErrorOf, Dated, FromBetween;
    ghost var p := io.Current();
    var c := b.active[start];
    MayResume(b, start, p, offset, |data|);
    GoingActive(b, p, offset, |data|);
    ghost var before := io.server;
    var d, reply := ResumeChunk(io, offset, data, c);
    ghost var from, size := c.start + c.done, c.end - c.start - c.done;
    DisciplinedPush(old(io.log), n, Wrote(start, from, size, reply), |data|, io.protocol);
    ResumeGoing(b, c, d, reply, p, offset, |data|, io.protocol);
    EvolvesKeeps(before, io.server, offset, data, p.acked, io.loud);
    EvolvesVerifier(before, io.server, offset, data, io.loud);
    DatedMore(p.acked, lo, before.verifier, io.server.verifier, from,
              if reply.Acknowledged? then reply.outcome else WriteOutcome(0, Unstable, None));
    b' := b.(active := b.active[start := d]);
    if Accepted(reply, size) {
      KeptMore(io.server, offset, data, p.acked, from, reply.outcome, io.loud);
      AckProgress(p, start, from, size, reply.outcome, |data|);
    } else {
      assert start in Unfinished(b.active);
    }
  }

  lemma GoingActive(b: Batch, p: Pass, offset: nat, length: nat)
    requires Going(b, p, offset, length)
    ensures p.active.Keys == b.active.Keys && b.next == p.next <= length && |b.active| <= WRITE_CONCURRENCY
  {
    EndsSize(b.active);
  }

  lemma AckProgress(p: Pass, start: nat, from: nat, size: nat, outcome: WriteOutcome, length: nat)
    requires MayWrite(p, start, from, size) && from + size <= length && 0 < outcome.count <= size
    ensures Span(0, length) - (p.acked + Acks(from, outcome)).Keys < Span(0, length) - p.acked.Keys
  {
    assert from in Span(0, length) && from in Acks(from, outcome) && from !in p.acked;
  }

  // Collecting a chunk.

  lemma CollectTallied(accepted: nat, receipts: seq<WriteOutcome>, c: Chunk, acked: map<nat, WriteOutcome>,
                       settled: set<nat>)
    requires Tallied(accepted, receipts, Within(acked, settled))
    requires c.start + c.done <= c.end && Span(c.start, c.end - c.start) !! settled
    requires forall i <- Span(c.start, c.done) :: i in acked && acked[i] in c.receipts
    requires forall i: nat | c.start + c.done <= i < c.end :: i !in acked
    requires forall w <- c.receipts :: Behind(w, acked, c.start, c.start + c.done)
    ensures Tallied(accepted + c.done, receipts + c.receipts, Within(acked, settled + Span(c.start, c.end - c.start)))
  {
    hide Span, Behind;
    AcksGrow(acked, settled, c);
    SpanSize(c.start, c.done);
    var acks := Within(acked, settled + Span(c.start, c.end - c.start));
    forall i | i in acks ensures acks[i] in receipts + c.receipts {
      assert i in Within(acked, settled) || i in Span(c.start, c.done);
    }
    forall w | w in receipts ensures exists i <- acks :: acks[i] == w {
      var i :| i in Within(acked, settled) && Within(acked, settled)[i] == w;
      assert acks[i] == w;
    }
    forall w | w in c.receipts ensures exists i <- acks :: acks[i] == w {
      ReceiptCovers(w, acked, settled, c);
    }
  }

  lemma ReceiptCovers(w: WriteOutcome, acked: map<nat, WriteOutcome>, settled: set<nat>, c: Chunk)
    requires Behind(w, acked, c.start, c.start + c.done) && c.start + c.done <= c.end
    ensures var acks := Within(acked, settled + Span(c.start, c.end - c.start)); exists i <- acks :: acks[i] == w
  {
    var acks := Within(acked, settled + Span(c.start, c.end - c.start));
    var i: nat :| c.start <= i < c.start + c.done && i in acked && acked[i] == w;
    assert i in acks && acks[i] == w;
  }

  lemma AcksGrow(acked: map<nat, WriteOutcome>, settled: set<nat>, c: Chunk)
    requires c.start + c.done <= c.end && Span(c.start, c.end - c.start) !! settled
    requires forall i <- Span(c.start, c.done) :: i in acked
    requires forall i: nat | c.start + c.done <= i < c.end :: i !in acked
    ensures var grown := settled + Span(c.start, c.end - c.start);
      Within(acked, grown).Keys == Within(acked, settled).Keys + Span(c.start, c.done)
    ensures Within(acked, settled).Keys !! Span(c.start, c.done)
  {
  }

  lemma CollectBooked(active: map<nat, Chunk>, acked: map<nat, WriteOutcome>, errors: map<nat, NfsError>, c: Chunk)
    requires Booked(active, acked, errors) && c.start in active && active[c.start] == c
    ensures Booked(active - {c.start}, acked, errors)
    ensures c.start + c.done <= c.end && forall i <- Span(c.start, c.done) :: i in acked && acked[i] in c.receipts
    ensures forall i: nat | c.start + c.done <= i < c.end :: i !in acked
    ensures forall w <- c.receipts :: Behind(w, acked, c.start, c.start + c.done)
    ensures c.error == (if c.start in errors then Some(errors[c.start]) else None)
  {
  }

  /** Of the failed ranges only the one collected now comes into view. */
  lemma ErrorsGrow(p: Pass, c: Chunk, length: nat)
    requires Sound(p, length) && c.start in p.active && p.active[c.start] == c.end
    requires c.error == (if c.start in p.errors then Some(p.errors[c.start]) else None)
    ensures var was, now := Within(p.errors, p.settled), Within(p.errors, p.settled + Span(c.start, c.end - c.start));
      c.start !in was && now == if c.error.Some? then was[c.start := c.error.value] else was
  {
    hide Balanced;
    ActiveRange(p, c.start, length);
    assert c.start in Span(c.start, c.end - c.start);
  }

  lemma CollectDiagnosed(b: Batch, c: Chunk, offset: nat, errors: map<nat, NfsError>)
    requires Diagnosed(b.failure, b.uncertain, errors, offset) && c.start !in errors
    ensures var b' := Settle(b, c, offset);
      Diagnosed(b'.failure, b'.uncertain, if c.error.Some? then errors[c.start := c.error.value] else errors, offset)
  {
    if c.error.Some? {
      var more := errors[c.start := c.error.value];
      assert more[c.start] == c.error.value;
      assert forall s <- errors :: more[s] == errors[s];
    }
  }

  lemma MayCollectNow(b: Batch, c: Chunk, p: Pass, offset: nat, length: nat)
    requires Going(b, p, offset, length) && c.start in b.active && b.active[c.start] == c && c.Finished()
    ensures MayCollect(p, c.start)
  {
    hide Sound, Booked, Tallied, Diagnosed;
    BookedAt(b.active, p.acked, p.errors, c.start);
    assert p.active[c.start] == c.end;
  }

  lemma CollectGoing(b: Batch, c: Chunk, p: Pass, offset: nat, length: nat, protocol: Protocol)
    requires Going(b, p, offset, length) && c.start in b.active && b.active[c.start] == c && c.Finished()
    ensures MayCollect(p, c.start)
    ensures var q := Do(p, Collected(c.start), protocol);
      Going(Settle(b, c, offset), q, offset, length) && q.acked == p.acked && q.commit.None?
  {
    hide Sound, Tallied, Booked, Diagnosed, MayCollect, Behind, Within;
    ActiveApart(b, p, c.start, length);
    CollectBooked(b.active, p.acked, p.errors, c);
    assert p.active[c.start] == c.end;
    MayCollectNow(b, c, p, offset, length);
    DoSound(p, Collected(c.start), length, protocol);
    CollectTallied(b.accepted, b.receipts, c, p.acked, p.settled);
    ErrorsGrow(p, c, length);
    CollectDiagnosed(b, c, offset, Within(p.errors, p.settled));
    assert Ends(b.active - {c.start}) == Ends(b.active) - {c.start};
  }

  // The scheduler.

  lemma TrackedPush(io: WriteIo, n: nat, offset: nat, data: seq<Byte>, b: Batch, log: seq<Act>, act: Act)
    requires Disciplined(log, n, |data|, io.protocol) && Allowed(Scan(log, io.protocol), act, |data|)
    requires io.log == log + [act]
    requires Going(b, Do(Scan(log, io.protocol), act, io.protocol), offset, |data|)
    requires Kept(io.server, offset, data, Do(Scan(log, io.protocol), act, io.protocol).acked, io.loud)
    requires io.carriesVerifier ==> NamedAcks(Do(Scan(log, io.protocol), act, io.protocol).acked)
    ensures Tracked(io, n, offset, data, b) && io.Current() == Do(Scan(log, io.protocol), act, io.protocol)
  {
    hide Going, Kept, NamedAcks, Allowed, Do, Disciplined, Scan;
    DisciplinedPush(log, n, act, |data|, io.protocol);
  }

  /** Lines 225-239 of `write_all_with`: the first ranges are admitted. */
  method StartBatch(io: WriteIo, chunk: nat, offset: nat, data: seq<Byte>, ghost n: nat) returns (b: Batch)
    requires data != [] && Disciplined(io.log, n, |data|, io.protocol)
    requires chunk > 0 && io.Current() == FRESH.(chunk := chunk)
    modifies io`log
    ensures old(io.log) <= io.log && Tracked(io, n, offset, data, b) && !Faulted(b)
    ensures b.active != map[] && io.Current().acked == map[]
  {
    hide Going, Scan, Disciplined;
    b := Batch(chunk, map[], 0, 0, [], None, false);
    StartGoing(chunk, offset, |data|);
    while |b.active| < WRITE_CONCURRENCY && b.next < |data|
      invariant b == Batch(chunk, b.active, b.next, 0, [], None, false) && b.next <= |data| && !Faulted(b)
      invariant old(io.log) <= io.log && Tracked(io, n, offset, data, b) && io.Current().acked == map[]
      invariant b.active == map[] ==> b.next == 0
      decreases |data| - b.next
    {
      AdmitGoing(b, io.Current(), offset, |data|, io.protocol);
      ghost var log, end := io.log, RangeEnd(b.next, b.chunk, |data|);
      io.Admit(b.next, end, |data|);
      TrackedPush(io, n, offset, data, Admit(b, |data|), log, Admitted(b.next, end));
      assert b.next in Admit(b, |data|).active;
      b := Admit(b, |data|);
    }
  }

  /** Lines 244-261 of `write_all_with`: a finished chunk is collected and, unless
      some chunk has failed, the next range takes its place. */
  method SettleOne(io: WriteIo, b: Batch, start: nat, offset: nat, data: seq<Byte>, ghost n: nat)
    returns (b': Batch)
    requires Tracked(io, n, offset, data, b) && start in b.active && b.active[start].Finished()
    modifies io`log
    ensures old(io.log) <= io.log && Tracked(io, n, offset, data, b')
    ensures io.Current().acked == old(io.Current().acked) && (Faulted(b') ==> Faulted(b))
    ensures b.next < b'.next <= |data| || (b'.next == b.next && b'.active.Keys == b.active.Keys - {start})
    ensures b'.failure.None? && b'.active == map[] ==> b'.next == |data|
  {
    hide Going, Scan, Disciplined, Kept, NamedAcks, Do, MayAdmit, MayCollect;
    var c := b.active[start];
    ghost var p := io.Current();
    GoingActive(b, p, offset, |data|);
    GoingStart(b, p, start, offset, |data|);
    CollectGoing(b, c, p, offset, |data|, io.protocol);
    ghost var log := io.log;
    io.Collect(start);
    b' := Settle(b, c, offset);
    TrackedPush(io, n, offset, data, b', log, Collected(start));
    assert b.active.Keys == (b.active - {start}).Keys + {start};
    GoingActive(b', io.Current(), offset, |data|);
    if b'.failure.None? && b'.next < |data| {
      ActiveShrinks(b.active, start);
      b' := AdmitNext(io, b', offset, data, n);
    }
  }

  /** The next range begins. */
  method AdmitNext(io: WriteIo, b: Batch, offset: nat, data: seq<Byte>, ghost n: nat) returns (b': Batch)
    requires Tracked(io, n, offset, data, b) && b.failure.None?
    requires b.next < |data| && |b.active| < WRITE_CONCURRENCY
    modifies io`log
    ensures old(io.log) <= io.log && Tracked(io, n, offset, data, b')
    ensures io.Current().acked == old(io.Current().acked) && (Faulted(b') ==> Faulted(b))
    ensures b.next < b'.next <= |data| && b'.active != map[]
  {
    hide Going, Scan, Disciplined, Kept, NamedAcks, Do, MayAdmit;
    AdmitGoing(b, io.Current(), offset, |data|, io.protocol);
    ghost var log, end := io.log, RangeEnd(b.next, b.chunk, |data|);
    io.Admit(b.next, end, |data|);
    b' := Admit(b, |data|);
    GoingChunk(b, Scan(log, io.protocol), offset, |data|);
    TrackedPush(io, n, offset, data, b', log, Admitted(b.next, end));
    assert b.next in b'.active;
  }

  lemma GoingChunk(b: Batch, p: Pass, offset: nat, length: nat)
    requires Going(b, p, offset, length)
    ensures 0 < p.chunk == b.chunk && p.commit.None?
  {
  }

  lemma ActiveShrinks(active: map<nat, Chunk>, start: nat)
    requires start in active && |active| <= WRITE_CONCURRENCY
    ensures |active - {start}| < WRITE_CONCURRENCY
  {
    assert (active - {start}).Keys == active.Keys - {start};
  }

  lemma GoingStart(b: Batch, p: Pass, start: nat, offset: nat, length: nat)
    requires Going(b, p, offset, length) && start in b.active
    ensures b.active[start].start == start
  {
  }

  /** The end of a pass: every acknowledgement and every error has been collected. */
  lemma PassDone(b: Batch, p: Pass, offset: nat, length: nat)
    requires Going(b, p, offset, length) && b.active == map[]
    ensures p.active == map[] && p.commit.None? && Tallied(b.accepted, b.receipts, p.acked)
    ensures Diagnosed(b.failure, b.uncertain, p.errors, offset)
    ensures b.failure.None? ==> p.errors == map[]
    ensures b.failure.None? && b.next == length ==> MayCommit(p, length) && forall i: nat | i < length :: i in p.acked
  {
    assert p.active == map[];
    assert forall i: nat :: !Writing(p.active, i);
    assert Within(p.acked, p.settled) == p.acked && Within(p.errors, p.settled) == p.errors;
  }

  /** Lines 225-262 of `write_all_with`: one pass over the whole payload, in any
      order of chunk progress and completion.  Its counters are exactly what the log
      says, and nothing is left active. */
  method WritePass(io: WriteIo, offset: nat, data: seq<Byte>, ghost n: nat) returns (b: Batch)
    requires data != [] && MayStart(io.Current()) && Disciplined(io.log, n, |data|, io.protocol)
    modifies io`server, io`faults, io`log
    ensures old(io.log) <= io.log && Disciplined(io.log, n, |data|, io.protocol)
    ensures Evolves(old(io.server), io.server, offset, data, io.loud)
    ensures Kept(io.server, offset, data, io.Current().acked, io.loud)
    ensures io.carriesVerifier ==> NamedAcks(io.Current().acked)
    ensures Dated(io.Current().acked, old(io.server).verifier, io.server.verifier)
    ensures io.Current().active == map[] && io.Current().commit.None?
    ensures Tallied(b.accepted, b.receipts, io.Current().acked)
    ensures Diagnosed(b.failure, b.uncertain, io.Current().errors, offset)
    ensures b.failure.None? ==> MayCommit(io.Current(), |data|) && forall i: nat | i < |data| :: i in io.Current().acked
    ensures io.faults >= old(io.faults) && (b.failure.Some? ==> io.faults > old(io.faults))
  {
    hide Going, Evolves, Promised, Diagnosed, Tallied, Scan, Disciplined, Kept, NamedAcks, MayCommit, FromBetween;
    ghost var log := io.log;
    var size := io.WriteChunkSize();
    PassBegins(log, n, size, |data|, io.protocol);
    b := StartBatch(io, AtLeastOne(size), offset, data, n);
    EvolvesByNothing(io.server, offset, data, io.loud);
    while b.active != map[]
      invariant old(io.log) <= io.log && Evolves(old(io.server), io.server, offset, data, io.loud)
      invariant Tracked(io, n, offset, data, b)
      invariant Dated(io.Current().acked, old(io.server).verifier, io.server.verifier)
      invariant b.failure.None? && b.active == map[] ==> b.next == |data|
      invariant io.faults >= old(io.faults) && (Faulted(b) ==> io.faults > old(io.faults))
      decreases Span(0, |data|) - io.Current().acked.Keys, |data| - b.next, b.active.Keys, Unfinished(b.active)
    {
      var start :| start in b.active;
      GoingActive(b, io.Current(), offset, |data|);
      if b.active[start].Finished() {
        b := SettleOne(io, b, start, offset, data, n);
      } else {
        ghost var before := io.server;
        b := ResumeOne(io, offset, data, b, start, n, old(io.server).verifier);
        EvolvesThen(old(io.server), before, io.server, offset, data, io.loud);
        assert start in b.active;
      }
    }
    PassDone(b, io.Current(), offset, |data|);
  }

  lemma PassBegins(log: seq<Act>, n: nat, size: nat, length: nat, protocol: Protocol)
    requires Disciplined(log, n, length, protocol) && MayStart(Scan(log, protocol))
    ensures Disciplined(log + [Sized(size)], n, length, protocol)
    ensures Scan(log + [Sized(size)], protocol) == FRESH.(chunk := AtLeastOne(size))
  {
    hide Scan, Disciplined;
    DisciplinedPush(log, n, Sized(size), length, protocol);
  }

  /** The lowest failed offset is reported; it is reported bare only when no byte
      was acknowledged and no failed range may have taken effect. */
  ghost predicate Reported(e: NfsError, p: Pass) {
    exists s <- p.errors ::
      && (forall other <- p.errors :: s <= other)
      && (if p.acked == map[] && !(exists f <- p.errors :: SurfaceUncertain(p.errors[f]))
          then e == p.errors[s]
          else Inconclusive(e, |p.acked|, "write", p.errors[s]))
  }

  /** How the result of a call follows from what the log says about its last pass. */
  ghost predicate Told(r: Result<nat>, p: Pass, length: nat, sent: nat) {
    && p.active == map[] && (r.Ok? <==> p.commit.Some? && p.commit.value.Ok?)
    && (r.Ok? ==> r.value == length && forall i: nat | i < length :: i in p.acked)
    && (r.Err? && p.errors != map[] ==> Reported(r.error, p))
    && (r.Err? && p.errors == map[] ==>
          && p.commit.Some? && p.commit.value.Err?
          && Inconclusive(r.error, length, "commit", p.commit.value.error)
          && (NamesVerifierChange(p.commit.value.error) ==> sent == 3))
    && sent <= (if p.errors == map[] then 3 else 2)
  }

  /** What `write_all_with` promises of its result.  Its acts are the log from `n` on. */
  ghost predicate Outcome(r: Result<nat>, io: WriteIo, n: nat, offset: nat, data: seq<Byte>, sent: nat)
    reads io
  {
    && n < |io.log| && io.log[n].Called? && Disciplined(io.log, n + 1, |data|, io.protocol)
    && Told(r, io.Current(), |data|, sent)
    && (r.Ok? ==> Secured(io.server, offset, data, io.Current().acked, io.loud))
    && (r.Ok? && io.carriesVerifier ==> DurableWhere(io.server, offset, data, io.loud))
    && (r.Ok? && io.carriesVerifier && Calm(offset, |data|, io.loud) ==> Durable(io.server, offset, data))
  }

  lemma FailureReported(b: Batch, p: Pass, offset: nat, protocol: Protocol)
    requires b.failure.Some? && Diagnosed(b.failure, b.uncertain, p.errors, offset)
    requires Tallied(b.accepted, b.receipts, p.acked)
    ensures p.errors != map[]
    ensures Reported(WriteFailure(b.failure.value.1, protocol, b.accepted, false, b.uncertain), p)
  {
    var s := b.failure.value.0 - offset;
    assert s in p.errors;
    assert b.accepted == 0 <==> p.acked == map[];
  }

  /** Every byte whose reply was FILE_SYNC or carried a verifier survives restarts. */
  ghost predicate Secured(server: Server, offset: nat, data: seq<Byte>, acked: map<nat, WriteOutcome>, loud: set<nat>) {
    forall i: nat | i < |data| && i in acked && Named(acked[i]) && offset + i !in loud ::
      Settled(server, offset + i, data[i])
  }

  lemma CommitSecures(written: Server, server: Server, offset: nat, data: seq<Byte>, acked: map<nat, WriteOutcome>,
                      receipts: seq<WriteOutcome>, loud: set<nat>)
    requires Kept(written, offset, data, acked, loud) && forall i <- acked :: acked[i] in receipts
    requires forall i, w | 0 <= i < |data| && offset + i !in loud && w in receipts
                           && Promised(written, offset + i, data[i], w) && Named(w) ::
               Settled(server, offset + i, data[i])
    ensures Secured(server, offset, data, acked, loud)
  {
    hide Promised, Settled, Named;
    forall i: nat | i < |data| && i in acked && Named(acked[i]) && offset + i !in loud
      ensures Settled(server, offset + i, data[i]) {
      assert Promised(written, offset + i, data[i], acked[i]);
    }
  }

  lemma SecuredIsDurable(server: Server, offset: nat, data: seq<Byte>, acked: map<nat, WriteOutcome>, loud: set<nat>)
    requires Secured(server, offset, data, acked, loud) && NamedAcks(acked) && forall i: nat | i < |data| :: i in acked
    ensures DurableWhere(server, offset, data, loud)
    ensures Calm(offset, |data|, loud) ==> Durable(server, offset, data)
  {
    hide Settled, Named;
  }

  /** However the call went on: if the effect of one of its WRITEs is open, because no
      reply came or one with a count that cannot be, the caller is told so, with the
      bytes acknowledged. */
  lemma UnclearIsReported(r: Result<nat>, io: WriteIo, n: nat, k: nat, offset: nat, data: seq<Byte>, sent: nat)
    requires Outcome(r, io, n, offset, data, sent) && n < k < |io.log| && Unclear(io.log[k])
    ensures r.Err? && exists source :: Inconclusive(r.error, |io.Current().acked|, "write", source)
  {
    hide Allowed, Inconclusive, SurfaceUncertain, ErrorOf;
    var act, p := io.log[k], io.Current();
    FailedWriteIsRecorded(io.log, n + 1, k, |data|, io.protocol);
    WroteIsGenuine(Scan(io.log[..k], io.protocol), act, |data|);
    FailureExplained(act.reply, act.from - act.start, io.protocol);
    assert SurfaceUncertain(p.errors[act.start]);
    FailedPassNotCommitted(io, n, |data|);
  }

  lemma ReportedRange(r: Result<nat>, p: Pass, length: nat, sent: nat) returns (s: nat)
    requires Told(r, p, length, sent) && r.Err? && p.errors != map[]
    ensures s in p.errors && forall other <- p.errors :: s <= other
    ensures r.error == p.errors[s] || Inconclusive(r.error, |p.acked|, "write", p.errors[s])
  {
    hide Inconclusive, SurfaceUncertain;
    s :| s in p.errors && (forall other <- p.errors :: s <= other)
         && (r.error == p.errors[s] || Inconclusive(r.error, |p.acked|, "write", p.errors[s]));
  }

  /** `e` is the error of the failed WRITE `k`, which began at the lowest offset of all
      failed WRITEs of the call: bare, or as the source of an open outcome. */
  ghost predicate BlamesWrite(e: NfsError, log: seq<Act>, n: nat, k: nat, acked: nat) {
    && n < k < |log| && FailedWrite(log[k]) && log[k].start <= log[k].from
    && (forall j | n < j < |log| && FailedWrite(log[j]) :: log[k].start <= log[j].start)
    && exists cause :: Accounts(e, cause, log[k], acked)
  }

  /** `cause` explains the WRITE, and `e` is it, or leaves the outcome open because of it. */
  ghost predicate Accounts(e: NfsError, cause: NfsError, act: Act, acked: nat)
    requires act.Wrote? && act.start <= act.from
  {
    Explains(cause, act.reply, act.from - act.start) && (e == cause || Inconclusive(e, acked, "write", cause))
  }

  /** `e` leaves the outcome of the whole payload open because of the failed COMMIT `k`. */
  ghost predicate BlamesCommit(e: NfsError, log: seq<Act>, n: nat, k: nat, length: nat) {
    n < k < |log| && log[k].Committed? && log[k].result.Err? && Inconclusive(e, length, "commit", log[k].result.error)
  }

  /** The error of a call is what one of its WRITEs or its last COMMIT gave. */
  ghost predicate Justified(e: NfsError, log: seq<Act>, n: nat, acked: nat, length: nat) {
    if exists j :: n < j < |log| && FailedWrite(log[j]) then exists k: nat :: BlamesWrite(e, log, n, k, acked)
    else exists k: nat :: BlamesCommit(e, log, n, k, length)
  }

  lemma FailureNamesCause(r: Result<nat>, io: WriteIo, n: nat, offset: nat, data: seq<Byte>, sent: nat)
    returns (k: nat)
    requires Outcome(r, io, n, offset, data, sent) && r.Err? && io.Current().errors != map[]
    ensures BlamesWrite(r.error, io.log, n, k, |io.Current().acked|)
  {
    hide Allowed, Inconclusive, ErrorOf, Scan, Disciplined, Explains, Genuine, Accepted, Told;
    hide Secured, DurableWhere, Durable, Calm;
    var p := io.Current();
    var s := ReportedRange(r, p, |data|, sent);
    assert io.log[..|io.log|] == io.log;
    k := ErrorHasCause(io.log, n, |io.log|, s, |data|, io.protocol);
    FailureExplained(io.log[k].reply, io.log[k].from - s, io.protocol);
    assert Accounts(r.error, p.errors[s], io.log[k], |p.acked|);
    forall j | n < j < |io.log| && FailedWrite(io.log[j]) ensures s <= io.log[j].start {
      FailedWriteIsRecorded(io.log, n + 1, j, |data|, io.protocol);
    }
  }

  /** Whatever a call returns as its error is what the log of the call justifies. */
  lemma FailureJustified(r: Result<nat>, io: WriteIo, n: nat, offset: nat, data: seq<Byte>, sent: nat)
    requires Outcome(r, io, n, offset, data, sent) && r.Err?
    ensures Justified(r.error, io.log, n, |io.Current().acked|, |data|)
  {
    hide Allowed, Inconclusive, Scan, Disciplined, Accepted, Secured, DurableWhere, Durable, Calm;
    hide BlamesWrite, Reported;
    var p := io.Current();
    if p.errors != map[] {
      var k := FailureNamesCause(r, io, n, offset, data, sent);
      BlamedFailed(r.error, io.log, n, k, |p.acked|);
    } else {
      forall j | n < j < |io.log| ensures !FailedWrite(io.log[j]) {
        if FailedWrite(io.log[j]) { FailedWriteIsRecorded(io.log, n + 1, j, |data|, io.protocol); }
      }
      assert io.log[..|io.log|] == io.log;
      CommitOnRecord(io.log, n, |io.log|, |data|, io.protocol);
      var k :| n < k < |io.log| && io.log[k] == Committed(p.commit.value);
      assert BlamesCommit(r.error, io.log, n, k, |data|);
    }
  }

  lemma BlamedFailed(e: NfsError, log: seq<Act>, n: nat, k: nat, acked: nat)
    requires BlamesWrite(e, log, n, k, acked)
    ensures n < k < |log| && FailedWrite(log[k])
  {
  }

  /** An error after any byte of the last pass was acknowledged, or after its COMMIT,
      leaves the outcome unknown. */
  lemma AcknowledgedIsUncertain(r: Result<nat>, p: Pass, length: nat, sent: nat)
    requires Told(r, p, length, sent) && r.Err? && (p.acked != map[] || p.commit.Some?) && length > 0
    requires p.errors != map[] ==> p.commit.None?
    ensures SurfaceUncertain(r.error)
  {
    hide SurfaceUncertain, Inconclusive;
    if p.errors != map[] {
      var s :| s in p.errors && Inconclusive(r.error, |p.acked|, "write", p.errors[s]);
      InconclusiveIsUncertain(r.error, |p.acked|, "write", p.errors[s]);
    } else {
      InconclusiveIsUncertain(r.error, length, "commit", p.commit.value.error);
    }
  }

  lemma WroteIsGenuine(p: Pass, act: Act, length: nat)
    requires act.Wrote? && Allowed(p, act, length)
    ensures Genuine(act.reply)
  {
  }

  lemma FailedPassNotCommitted(io: WriteIo, n: nat, length: nat)
    requires n < |io.log| && io.log[n].Called? && Disciplined(io.log, n + 1, length, io.protocol)
    requires io.Current().errors != map[]
    ensures io.Current().commit.None?
  {
    SchedulerInvariant(io.log, n, |io.log|, length, io.protocol);
    assert io.log[..|io.log|] == io.log;
  }

  /** A replay began, its own WRITEs acknowledged nothing, and none of them may have
      taken effect. */
  ghost predicate Forgotten(log: seq<Act>, n: nat, p: Pass) {
    Replayed(log, n, |log|) && p.acked == map[] && forall s <- p.errors :: !SurfaceUncertain(p.errors[s])
  }

  lemma CommittedPassIsAcked(p: Pass, length: nat)
    requires Sound(p, length) && p.commit.Some? && length > 0
    ensures p.acked != map[]
  {
    assert !Writing(p.active, 0);
    assert 0 in p.settled && 0 in p.acked;
  }

  lemma BareExactly(r: Result<nat>, p: Pass, length: nat, sent: nat)
    requires Told(r, p, length, sent) && r.Err? && Sound(p, length) && length > 0
    ensures !SurfaceUncertain(r.error) <==> p.acked == map[] && forall s <- p.errors :: !SurfaceUncertain(p.errors[s])
  {
    hide SurfaceUncertain, Inconclusive, Balanced, Recorded;
    if p.acked != map[] || p.commit.Some? {
      AcknowledgedIsUncertain(r, p, length, sent);
      if p.commit.Some? { CommittedPassIsAcked(p, length); }
    } else if s :| s in p.errors && SurfaceUncertain(p.errors[s]) {
      var t :| t in p.errors && Inconclusive(r.error, |p.acked|, "write", p.errors[t]);
      InconclusiveIsUncertain(r.error, |p.acked|, "write", p.errors[t]);
    }
  }

  /** Over whole calls: an error after some WRITE was accepted leaves the outcome
      open, without saying so, if and only if an earlier COMMIT of the call reported a
      verifier change and the pass after it acknowledged nothing and has no uncertain
      failure.  The counters start anew with each pass. */
  lemma UnmarkedExactly(r: Result<nat>, io: WriteIo, n: nat, offset: nat, data: seq<Byte>, sent: nat)
    requires data != [] && Outcome(r, io, n, offset, data, sent) && r.Err? && SomeAccepted(io.log, n)
    ensures !SurfaceUncertain(r.error) <==> Forgotten(io.log, n, io.Current())
  {
    hide SurfaceUncertain, Told, Scan, Disciplined, Replayed, SomeAccepted, Sound;
    assert io.log[..|io.log|] == io.log;
    SchedulerInvariant(io.log, n, |io.log|, |data|, io.protocol);
    BareExactly(r, io.Current(), |data|, sent);
    if io.Current().acked == map[] { ForgottenOnlyByReplay(io.log, n, |data|, io.protocol); }
  }

  /** Such a call: the payload is acknowledged, COMMIT reports a verifier change, and
      the first WRITE of the replay is refused with a definite error. */
  function ForgetfulLog(length: nat, w: WriteOutcome, e: NfsError, protocol: Protocol): seq<Act> {
    [Called, Sized(length), Admitted(0, length), Wrote(0, 0, length, Acknowledged(w)), Collected(0),
     Committed(Err(WriteVerifierChanged(protocol))),
     Sized(length), Admitted(0, length), Wrote(0, 0, length, Refused(e)), Collected(0)]
  }

  /** One range over the whole payload, written once and collected. */
  lemma OneRange(log: seq<Act>, length: nat, reply: WriteReply, protocol: Protocol) returns (more: seq<Act>)
    requires length > 0 && Disciplined(log, 1, length, protocol) && MayStart(Scan(log, protocol)) && Genuine(reply)
    requires reply.Acknowledged? ==> reply.outcome.count == length
    ensures more == log + [Sized(length), Admitted(0, length), Wrote(0, 0, length, reply), Collected(0)]
    ensures Disciplined(more, 1, length, protocol)
    ensures Scan(more, protocol) == Whole(length, reply, protocol)
  {
    hide Scan, Disciplined, Genuine, ErrorOf, Span, Acks, Do, Allowed, MayStart, Whole;
    var admit, write, collect := Admitted(0, length), Wrote(0, 0, length, reply), Collected(0);
    PassBegins(log, 1, length, length, protocol);
    var sized := log + [Sized(length)];
    AdmitWhole(length, protocol);
    DisciplinedPush(sized, 1, admit, length, protocol);
    WriteWhole(length, reply, protocol);
    DisciplinedPush(sized + [admit], 1, write, length, protocol);
    DisciplinedPush(sized + [admit] + [write], 1, collect, length, protocol);
    more := sized + [admit] + [write] + [collect];
  }

  const NOTHING: map<nat, WriteOutcome> := map[]

  /** A pass of one range after its WRITE, collected. */
  function Whole(length: nat, reply: WriteReply, protocol: Protocol): Pass {
    Pass(length, map[], length, Span(0, length), if reply.Acknowledged? then Acks(0, reply.outcome) else map[],
         if reply.Acknowledged? then map[] else map[0 := ErrorOf(reply, 0, protocol)], None)
  }

  lemma AdmitWhole(length: nat, protocol: Protocol)
    requires length > 0
    ensures var p := FRESH.(chunk := AtLeastOne(length));
      && Allowed(p, Admitted(0, length), length)
      && Do(p, Admitted(0, length), protocol) == Pass(length, map[0 := length], length, {}, NOTHING, map[], None)
  {
  }

  lemma WriteWhole(length: nat, reply: WriteReply, protocol: Protocol)
    requires length > 0 && Genuine(reply) && (reply.Acknowledged? ==> reply.outcome.count == length)
    ensures var p := Pass(length, map[0 := length], length, {}, NOTHING, map[], None);
      var write := Wrote(0, 0, length, reply);
      var q := Do(p, write, protocol);
      && Allowed(p, write, length) && Allowed(q, Collected(0), length)
      && Do(q, Collected(0), protocol) == Whole(length, reply, protocol)
  {
    hide Genuine, ErrorOf;
    var p, write := Pass(length, map[0 := length], length, {}, NOTHING, map[], None), Wrote(0, 0, length, reply);
    var q := Do(p, write, protocol);
    assert q.active - {0} == map[] && {} + Span(0, length) == Span(0, length);
    if reply.Acknowledged? {
      assert NOTHING + Acks(0, reply.outcome) == Acks(0, reply.outcome);
    }
  }

  lemma ReplayForgets(length: nat, verifier: nat, e: NfsError, protocol: Protocol)
    requires length > 0 && !SurfaceUncertain(e)
    ensures var log := ForgetfulLog(length, WriteOutcome(length, Unstable, Some(verifier)), e, protocol);
      && Disciplined(log, 1, length, protocol) && SomeAccepted(log, 0)
      && Told(Err(e), Scan(log, protocol), length, 1)
  {
    hide SurfaceUncertain, Scan, Disciplined, Told, Do, MayStart;
    var w, changed := WriteOutcome(length, Unstable, Some(verifier)), WriteVerifierChanged(protocol);
    var log := ForgetfulLog(length, w, e, protocol);
    assert log[3].Wrote? && Accepted(log[3].reply, log[3].size);
    CallBegins([], length, protocol);
    var first := OneRange([] + [Called], length, Acknowledged(w), protocol);
    DisciplinedPush(first, 1, Committed(Err(changed)), length, protocol);
    var p := Scan(first, protocol);
    StartsAgain(p, changed, protocol);
    var second := OneRange(first + [Committed(Err(changed))], length, Refused(e), protocol);
    assert log == second;
    BareRefusalTold(Scan(second, protocol), e, length);
  }

  lemma BareRefusalTold(p: Pass, e: NfsError, length: nat)
    requires p.errors == map[0 := e] && p.acked == map[] && p.active == map[] && p.commit.None? && !SurfaceUncertain(e)
    ensures Told(Err(e), p, length, 1)
  {
    hide SurfaceUncertain;
    assert 0 in p.errors && Reported(e, p);
  }

  /** Replies carry verifiers, nothing has failed, and the server has not restarted. */
  ghost predicate Undisturbed(io: WriteIo, faults: nat, server: Server)
    reads io
  {
    io.carriesVerifier && io.faults == faults && io.server.verifier == server.verifier
  }

  /** `write_all_with`.  Ok means durable, however the chunks were cut, ordered,
      shortened or replayed and however often the server restarted; an error tells
      what the log of the call says. */
  method WriteAllWith(io: WriteIo, offset: nat, data: seq<Byte>) returns (r: Result<nat>)
    requires offset < U64
    modifies io
    ensures old(io.log) <= io.log
    ensures offset + |data| >= U64 ==>
      && r == Err(InvalidInput("write range overflows u64"))
      && io.server == old(io.server) && io.commits == old(io.commits) && io.log == old(io.log)
    ensures data == [] ==>
      r == Ok(0) && io.server == old(io.server) && io.commits == old(io.commits) && io.log == old(io.log)
    ensures old(io.commits) <= io.commits <= old(io.commits) + 3
    ensures offset + |data| < U64 && data != [] ==>
      Outcome(r, io, |old(io.log)|, offset, data, io.commits - old(io.commits))
    ensures forall k | |old(io.log)| < k < |io.log| && Unclear(io.log[k]) ::
      r.Err? && exists source :: Inconclusive(r.error, |io.Current().acked|, "write", source)
    ensures r.Err? && offset + |data| < U64 ==>
      Justified(r.error, io.log, |old(io.log)|, |io.Current().acked|, |data|)
    ensures r.Err? && offset + |data| < U64 ==> io.faults > old(io.faults) || io.commits == old(io.commits) + 3
    ensures offset + |data| < U64 && Undisturbed(io, old(io.faults), old(io.server)) ==> r.Ok?
    ensures Evolves(old(io.server), io.server, offset, data, io.loud)
    ensures OutsideUntouched(old(io.server), io.server, offset, |data|, io.loud)
  {
    hide Evolves, OutsideUntouched, Scan, Disciplined, Durable, DurableWhere, Inconclusive, Secured, Told, MayStart;
    hide Justified;
    EvolvesByNothing(io.server, offset, data, io.loud);
    EvolvesOutside(io.server, io.server, offset, data, io.loud);
    var length := |data|;
    if offset + length >= U64 {
      return Err(InvalidInput("write range overflows u64"));
    }
    if data == [] {
      return Ok(0);
    }
    ghost var n := |io.log|;
    io.Begin();
    CallBegins(old(io.log), length, io.protocol);
    var attempt, result: Option<Result<nat>> := 0, None;
    while result.None?
      invariant old(io.log) + [Called] <= io.log && Disciplined(io.log, n + 1, length, io.protocol)
      invariant Evolves(old(io.server), io.server, offset, data, io.loud) && io.faults >= old(io.faults)
      invariant old(io.server).verifier <= io.server.verifier
      invariant attempt > 0 && (result.Some? ==> result.value.Err?) ==>
        !io.carriesVerifier || io.faults > old(io.faults) || io.server.verifier > old(io.server).verifier
      invariant result.None? ==> attempt <= 2 && io.commits == old(io.commits) + attempt && MayStart(io.Current())
      invariant result.Some? ==> attempt > 0
      invariant result.Some? ==>
        && old(io.commits) <= io.commits <= old(io.commits) + 3
        && Told(result.value, io.Current(), length, io.commits - old(io.commits))
        && (result.value.Err? ==> io.faults > old(io.faults) || io.commits == old(io.commits) + 3)
        && (result.value.Ok? ==> Secured(io.server, offset, data, io.Current().acked, io.loud))
        && (result.value.Ok? && io.carriesVerifier ==> DurableWhere(io.server, offset, data, io.loud))
        && (result.value.Ok? && io.carriesVerifier && Calm(offset, |data|, io.loud) ==>
              Durable(io.server, offset, data))
      decreases result.None?, 3 - attempt
    {
      ghost var started := io.server;
      result := Attempt(io, offset, data, attempt, n + 1, attempt);
      EvolvesThen(old(io.server), started, io.server, offset, data, io.loud);
      EvolvesVerifier(started, io.server, offset, data, io.loud);
      attempt := attempt + 1;
    }
    r := result.value;
    EvolvesOutside(old(io.server), io.server, offset, data, io.loud);
    assert io.log[n] == (old(io.log) + [Called])[n];
    if r.Err? { FailureJustified(r, io, n, offset, data, io.commits - old(io.commits)); }
    forall k | n < k < |io.log| && Unclear(io.log[k])
      ensures r.Err? && exists source :: Inconclusive(r.error, |io.Current().acked|, "write", source)
    {
      UnclearIsReported(r, io, n, k, offset, data, io.commits - old(io.commits));
    }
  }

  /** One turn of the outer loop: a pass and, unless it failed, its COMMIT.  `None` means
      that the verifier changed and attempts are left. */
  method Attempt(io: WriteIo, offset: nat, data: seq<Byte>, attempt: nat, ghost n: nat, ghost sent: nat)
    returns (r: Option<Result<nat>>)
    requires data != [] && attempt <= 2 && sent == attempt
    requires MayStart(io.Current()) && Disciplined(io.log, n, |data|, io.protocol)
    modifies io
    ensures old(io.log) <= io.log && Disciplined(io.log, n, |data|, io.protocol)
    ensures Evolves(old(io.server), io.server, offset, data, io.loud)
    ensures old(io.commits) <= io.commits <= old(io.commits) + 1 && io.faults >= old(io.faults)
    ensures r.None? ==> attempt < 2 && io.commits == old(io.commits) + 1 && MayStart(io.Current())
    ensures Undisturbed(io, old(io.faults), old(io.server)) ==> r.Some? && r.value.Ok?
    ensures r.Some? ==> Told(r.value, io.Current(), |data|, sent + io.commits - old(io.commits))
    ensures r.Some? && r.value.Err? ==>
      io.faults > old(io.faults) || sent + io.commits - old(io.commits) == 3
    ensures r.Some? && r.value.Ok? ==> Secured(io.server, offset, data, io.Current().acked, io.loud)
    ensures r.Some? && r.value.Ok? && io.carriesVerifier ==> DurableWhere(io.server, offset, data, io.loud)
    ensures r.Some? && r.value.Ok? && io.carriesVerifier && Calm(offset, |data|, io.loud) ==>
      Durable(io.server, offset, data)
  {
    hide Evolves, Kept, NamedAcks, Diagnosed, Tallied, Scan, Disciplined, Durable, DurableWhere, Inconclusive;
    hide Secured, Named, Told, MayStart, Do, MayCommit, NamesVerifierChange, Reported, WriteFailure;
    var length := |data|;
    var b := WritePass(io, offset, data, n);
    ghost var written, log, p := io.server, io.log, io.Current();
    if b.failure.Some? {
      FailureReported(b, p, offset, io.protocol);
      var e := WriteFailure(b.failure.value.1, io.protocol, b.accepted, false, b.uncertain);
      FailureTold(e, p, length, sent);
      return Some(Err(e));
    }
    var at, count := if length < U32 then offset else 0, if length < U32 then length else 0;
    ReceiptsKnown(b.accepted, b.receipts, p.acked);
    EvolvesVerifier(old(io.server), written, offset, data, io.loud);
    var committed := io.CommitBatch(offset, data, at, count, b.receipts);
    DisciplinedPush(log, n, Committed(committed), length, io.protocol);
    EvolvesThen(old(io.server), written, io.server, offset, data, io.loud);
    EvolvesVerifier(written, io.server, offset, data, io.loud);
    SameInstance(p.acked, old(io.server).verifier, io.server.verifier);
    if committed.Ok? {
      CommitTold(p, committed, io.protocol, length, sent + io.commits - old(io.commits));
      CommitSecures(written, io.server, offset, data, p.acked, b.receipts, io.loud);
      if io.carriesVerifier { SecuredIsDurable(io.server, offset, data, p.acked, io.loud); }
      return Some(Ok(length));
    }
    if attempt < 2 && NamesVerifierChange(committed.error) {
      StartsAgain(p, committed.error, io.protocol);
      return None;
    }
    CommitTold(p, committed, io.protocol, length, sent + io.commits - old(io.commits));
    return Some(Err(WriteFailure(committed.error, io.protocol, length, true, false)));
  }

  /** While the server does not restart, all acknowledgements name its instance. */
  lemma SameInstance(acked: map<nat, WriteOutcome>, lo: nat, hi: nat)
    ensures lo == hi && Dated(acked, lo, hi) ==>
      forall i <- acked :: acked[i].verifier.None? || acked[i].verifier == Some(hi)
  {
  }

  lemma CallBegins(log: seq<Act>, length: nat, protocol: Protocol)
    ensures Disciplined(log + [Called], |log| + 1, length, protocol) && MayStart(Scan(log + [Called], protocol))
  {
  }

  lemma ReceiptsKnown(accepted: nat, receipts: seq<WriteOutcome>, acked: map<nat, WriteOutcome>)
    requires Tallied(accepted, receipts, acked)
    ensures forall i <- acked :: acked[i] in receipts
    ensures forall w <- receipts :: exists i <- acked :: acked[i] == w
  {
  }

  lemma StartsAgain(p: Pass, e: NfsError, protocol: Protocol)
    requires NamesVerifierChange(e)
    ensures MayStart(Do(p, Committed(Err(e)), protocol))
  {
  }

  lemma FailureTold(e: NfsError, p: Pass, length: nat, sent: nat)
    requires Reported(e, p) && p.errors != map[] && p.active == map[] && p.commit.None? && sent <= 2
    ensures Told(Err(e), p, length, sent)
  {
  }

  lemma CommitTold(p: Pass, result: Result<()>, protocol: Protocol, length: nat, sent: nat)
    requires MayCommit(p, length) && (forall i: nat | i < length :: i in p.acked) && sent <= 3
    requires result.Err? && NamesVerifierChange(result.error) ==> sent == 3
    ensures var q := Do(p, Committed(result), protocol);
      Told(if result.Ok? then Ok(length) else Err(WriteFailure(result.error, protocol, length, true, false)),
           q, length, sent)
    ensures Do(p, Committed(result), protocol).acked == p.acked
  {
  }

  // Why the replies must carry verifiers.

  /** Every byte was acknowledged, then the server went on and a COMMIT of the
      batch returned a verifier that `verify_write_batch` accepts. */
  ghost predicate AcceptedBatch(written: Server, server: Server, offset: nat, data: seq<Byte>,
                                acks: map<nat, WriteOutcome>, receipts: seq<WriteOutcome>) {
    && (forall i: nat | i < |data| :: i in acks && acks[i] in receipts) && Kept(written, offset, data, acks, {})
    && exists mid :: Evolves(written, mid, offset, data, {})
                     && server == Step(mid, CommitEvent(mid, offset, |data|)) && Verified(receipts, Some(mid.verifier))
  }

  lemma NamedBatchIsDurable(written: Server, server: Server, offset: nat, data: seq<Byte>,
                            acks: map<nat, WriteOutcome>, receipts: seq<WriteOutcome>)
    requires AcceptedBatch(written, server, offset, data, acks, receipts) && forall w <- receipts :: Named(w)
    ensures Durable(server, offset, data)
  {
    var mid :| Evolves(written, mid, offset, data, {})
               && server == Step(mid, CommitEvent(mid, offset, |data|)) && Verified(receipts, Some(mid.verifier));
    forall i | 0 <= i < |data| ensures Settled(server, offset + i, data[i]) {
      EvolvesKeepsPromise(written, mid, offset, data, i, acks[i], {});
    }
  }

  /** A single reply without a verifier is enough to lose data unnoticed. */
  lemma UnnamedReplyLosesData(offset: nat, data: seq<Byte>)
    returns (written: Server, server: Server, acks: map<nat, WriteOutcome>, receipts: seq<WriteOutcome>)
    requires data != []
    ensures AcceptedBatch(written, server, offset, data, acks, receipts) && !Durable(server, offset, data)
  {
    hide Evolves, Step, CommitEvent, Overlay;
    var w := WriteOutcome(|data|, Unstable, None);
    written := Server(map[], Overlay(offset, data), 0);
    receipts := [w];
    acks := map i | i in Span(0, |data|) :: receipts[0];
    var restart := Restart({}, 1);
    EvolvesByNothing(written, offset, data, {});
    EvolvesBy(written, written, restart, offset, data, {});
    var mid := Step(written, restart);
    server := Step(mid, CommitEvent(mid, offset, |data|));
    assert forall i: nat | i < |data| :: i in Span(0, |data|);
    RestartLoses(written, offset, data);
    assert !Settled(server, offset + 0, data[0]);
  }

  lemma RestartLoses(written: Server, offset: nat, data: seq<Byte>)
    requires data != [] && written.stable == map[]
    ensures var mid := Step(written, Restart({}, 1));
      !Settled(Step(mid, CommitEvent(mid, offset, |data|)), offset, data[0])
  {
    var mid := Step(written, Restart({}, 1));
    assert mid.cache == map[] && offset !in mid.stable;
  }

  /** The acknowledgements of a batch cover the payload, and each reply covers a byte. */
  ghost predicate Covers(data: seq<Byte>, acks: map<nat, WriteOutcome>, receipts: seq<WriteOutcome>) {
    && (forall i: nat :: i in acks <==> i < |data|)
    && (forall i <- acks :: acks[i] in receipts) && (forall w <- receipts :: exists i <- acks :: acks[i] == w)
  }

  /** The replies a COMMIT by instance `v` is compared with name `v`; a FILE_SYNC reply
      may be from an earlier instance. */
  ghost predicate FromInstance(receipts: seq<WriteOutcome>, v: nat) {
    forall w <- receipts :: w.verifier.Some? ==>
      w.verifier.value == v || (w.committed.FileSync? && w.verifier.value <= v)
  }

  /** Given the replies of a batch that one instance could commit: every
      course of events in which the batch is accepted leaves the payload durable, if
      and only if every reply short of FILE_SYNC carries a verifier. */
  lemma DurableExactlyWithVerifiers(offset: nat, data: seq<Byte>, acks: map<nat, WriteOutcome>,
                                    receipts: seq<WriteOutcome>, v: nat)
    requires Covers(data, acks, receipts) && FromInstance(receipts, v)
    ensures (forall w <- receipts :: Named(w)) <==>
      forall written, server | AcceptedBatch(written, server, offset, data, acks, receipts) ::
        Durable(server, offset, data)
  {
    if forall w <- receipts :: Named(w) {
      forall written, server | AcceptedBatch(written, server, offset, data, acks, receipts)
        ensures Durable(server, offset, data)
      {
        NamedBatchIsDurable(written, server, offset, data, acks, receipts);
      }
    } else {
      var w :| w in receipts && !Named(w);
      var i :| i in acks && acks[i] == w;
      var written, server := UnnamedByteIsLost(offset, data, acks, receipts, v, i);
    }
  }

  /** The bytes of named replies are there and the byte of one unnamed reply is gone:
      nothing that was promised is broken, and the batch is accepted. */
  lemma UnnamedByteIsLost(offset: nat, data: seq<Byte>, acks: map<nat, WriteOutcome>,
                          receipts: seq<WriteOutcome>, v: nat, lost: nat) returns (written: Server, server: Server)
    requires Covers(data, acks, receipts) && FromInstance(receipts, v)
    requires lost in acks && !Named(acks[lost])
    ensures AcceptedBatch(written, server, offset, data, acks, receipts) && !Durable(server, offset, data)
  {
    written := Server(Overlay(offset, data) - {offset + lost}, map[], v);
    server := Step(written, CommitEvent(written, offset, |data|));
    EvolvesByNothing(written, offset, data, {});
    forall i | i in acks ensures i < |data| && Promised(written, offset + i, data[i], acks[i]) {
      assert acks[i] in receipts;
      assert offset + i in Span(offset, |data|);
    }
    assert Verified(receipts, Some(written.verifier));
    assert !Settled(server, offset + lost, data[lost]);
  }
}
