/** src/fileio.rs, read side, with the reply check of src/mount.rs: up to eight
    ranges are read at once, in any order, and delivered in file order. */
module ReadEngine {
  import opened Errors
  import opened StableStorage

  const U64: nat := 0x1_0000_0000_0000_0000
  const U32: nat := 0x1_0000_0000
  const READ_CONCURRENCY: nat := 8

  /** Bytes [from, from + count) of the file, cut off at its end. */
  function Slice(file: seq<Byte>, from: nat, count: nat): seq<Byte> {
    if from >= |file| then []
    else if from + count <= |file| then file[from..from + count]
    else file[from..]
  }

  function Flatten(pieces: seq<seq<Byte>>): seq<Byte> {
    if pieces == [] then [] else Flatten(pieces[..|pieces| - 1]) + pieces[|pieces| - 1]
  }

  /** `read_reply`: an empty READ without EOF must not look like the end of the file. */
  function ReadReply(data: seq<Byte>, eof: bool): (r: Result<seq<Byte>>)
    ensures r.Ok? <==> data != [] || eof
    ensures r.Ok? ==> r.value == data
  {
    if data == [] && !eof then Err(Rpc("READ made no progress without EOF")) else Ok(data)
  }

  const OVERSIZED := Rpc("server returned more READ data than requested")

  /** One READ with its reply, or one piece offered to the caller's `fill`. */
  datatype ReadAct =
    | Asked(at: nat, count: nat, reply: Result<seq<Byte>>)
    | Offered(place: nat, piece: seq<Byte>, refused: Option<NfsError>)

  /** What is wrong with the reply, if anything: READ failed, the reply is longer than
      was asked for, or `fill` did not take the piece. */
  ghost function Complaint(act: ReadAct): Option<NfsError> {
    match act
    case Asked(_, count, reply) =>
      if reply.Err? then Some(reply.error) else if |reply.value| > count then Some(OVERSIZED) else None
    case Offered(_, _, refused) => refused
  }

  /** The pieces `fill` took. */
  ghost function Takings(log: seq<ReadAct>): seq<(nat, seq<Byte>)> {
    if log == [] then []
    else
      var last := log[|log| - 1];
      Takings(log[..|log| - 1]) + if last.Offered? && last.refused.None? then [(last.place, last.piece)] else []
  }

  lemma TakingsPush(log: seq<ReadAct>, act: ReadAct)
    ensures Takings(log + [act]) ==
      Takings(log) + if act.Offered? && act.refused.None? then [(act.place, act.piece)] else []
  {
    assert (log + [act])[..|log|] == log;
  }

  /** The protocol layer below the reader, over a file that does not change, and the log
      of what was asked of it.  A reply may be short, fail, or be longer than asked for;
      the server reports EOF only at the end of the file.  `picky` says whether the
      caller's `fill` may refuse a piece. */
  class ReadIo {
    const file: seq<Byte>
    const chunkSize: nat
    const picky: bool
    ghost var log: seq<ReadAct>

    constructor (file: seq<Byte>, chunkSize: nat, picky: bool)
      ensures this.file == file && this.chunkSize == chunkSize && this.picky == picky && log == []
    {
      this.file, this.chunkSize, this.picky, this.log := file, chunkSize, picky, [];
    }

    method Read(at: nat, count: nat) returns (r: Result<seq<Byte>>)
      modifies this`log
      ensures log == old(log) + [Asked(at, count, r)]
      ensures r.Ok? && |r.value| <= count ==> r.value == Slice(file, at, |r.value|)
      ensures r.Ok? && r.value == [] ==> at >= |file|
    {
      var failed: bool := *;
      if failed {
        var e: NfsError := *;
        log := log + [Asked(at, count, Err(e))];
        return Err(e);
      }
      var n: nat, eof: bool := *, *;
      if n > count {
        var noise: seq<Byte> := *;
        r := ReadReply(if |noise| > count then noise else Slice(file, at, n), at + n >= |file|);
      } else {
        var data := Slice(file, at, n);
        r := ReadReply(data, eof && at + |data| >= |file|);
      }
      log := log + [Asked(at, count, r)];
    }

    /** The caller's `fill`, which takes or refuses a piece for its place. */
    method Fill(place: nat, piece: seq<Byte>) returns (refused: Option<NfsError>)
      modifies this`log
      ensures log == old(log) + [Offered(place, piece, refused)]
      ensures refused.Some? ==> picky
    {
      refused := *;
      if !picky { refused := None; }
      log := log + [Offered(place, piece, refused)];
    }
  }

  /** The locals of one suspended range read; `ended` is its `break` on an empty reply. */
  datatype ReadTask = ReadTask(start: nat, want: nat, got: nat, pieces: seq<seq<Byte>>,
                               error: Option<NfsError>, ended: bool)
  {
    predicate Finished() { error.Some? || ended || got == want }
  }

  ghost predicate TaskOk(file: seq<Byte>, offset: nat, t: ReadTask) {
    && t.got <= t.want
    && Flatten(t.pieces) == Slice(file, offset + t.start, t.got) && |Flatten(t.pieces)| == t.got
    && (forall p <- t.pieces :: p != [])
    && (t.ended ==> offset + t.start + t.got >= |file|)
  }

  lemma SliceJoin(file: seq<Byte>, from: nat, a: nat, b: nat)
    requires |Slice(file, from, a)| == a
    ensures Slice(file, from, a + b) == Slice(file, from, a) + Slice(file, from + a, b)
  {
  }

  lemma FlattenPush(pieces: seq<seq<Byte>>, piece: seq<Byte>)
    ensures Flatten(pieces + [piece]) == Flatten(pieces) + piece
  {
    assert (pieces + [piece])[..|pieces|] == pieces;
  }

  /** One iteration of the range's loop, from one READ to its reply: the READ asks for the
      whole rest of the range, and the range fails exactly with what is wrong with it. */
  method ResumeRead(io: ReadIo, offset: nat, t: ReadTask) returns (u: ReadTask, ghost reply: Result<seq<Byte>>)
    requires TaskOk(io.file, offset, t) && !t.Finished()
    modifies io`log
    ensures io.log == old(io.log) + [Asked(offset + t.start + t.got, t.want - t.got, reply)]
    ensures u.error == Complaint(Asked(offset + t.start + t.got, t.want - t.got, reply))
    ensures TaskOk(io.file, offset, u) && u.start == t.start && u.want == t.want
    ensures t.got <= u.got && (u.Finished() || t.got < u.got) && (u.error.Some? ==> u.got == t.got)
  {
    hide Flatten, Slice;
    var at := offset + t.start + t.got;
    var answer := io.Read(at, t.want - t.got);
    reply := answer;
    if answer.Err? {
      return t.(error := Some(answer.error)), reply;
    }
    var data := answer.value;
    if |data| > t.want - t.got {
      return t.(error := Some(OVERSIZED)), reply;
    }
    if data == [] {
      return t.(ended := true), reply;
    }
    SliceJoin(io.file, offset + t.start, t.got, |data|);
    FlattenPush(t.pieces, data);
    return t.(got := t.got + |data|, pieces := t.pieces + [data]), reply;
  }

  /** What the destination holds after these deliveries, in order. */
  function Text(delivered: seq<(nat, seq<Byte>)>): seq<Byte> {
    if delivered == [] then []
    else Text(delivered[..|delivered| - 1]) + delivered[|delivered| - 1].1
  }

  /** Each piece lands where the previous ones end. */
  ghost predicate Contiguous(delivered: seq<(nat, seq<Byte>)>) {
    delivered != [] ==>
      var last := delivered[|delivered| - 1];
      var rest := delivered[..|delivered| - 1];
      last.0 == |Text(rest)| && last.1 != [] && Contiguous(rest)
  }

  lemma Push(delivered: seq<(nat, seq<Byte>)>, piece: seq<Byte>)
    requires Contiguous(delivered) && piece != []
    ensures var next := delivered + [(|Text(delivered)|, piece)];
      Contiguous(next) && Text(next) == Text(delivered) + piece
  {
    assert (delivered + [(|Text(delivered)|, piece)])[..|delivered|] == delivered;
  }

  lemma {:induction false} FlattenPrefix(pieces: seq<seq<Byte>>, k: nat)
    requires k <= |pieces|
    ensures |Flatten(pieces[..k])| <= |Flatten(pieces)|
    ensures Flatten(pieces)[..|Flatten(pieces[..k])|] == Flatten(pieces[..k])
    decreases |pieces| - k
  {
    if k < |pieces| {
      FlattenPrefix(pieces, k + 1);
      assert pieces[..k + 1][..k] == pieces[..k];
    } else {
      assert pieces[..k] == pieces;
    }
  }

  /** Lines 396-401 of `read_chunks_with`: hand one range to the caller, whose
      `fill` may refuse any piece. */
  method Deliver(io: ReadIo, t: ReadTask, at: nat, delivered: seq<(nat, seq<Byte>)>, ghost n: nat)
    returns (result: seq<(nat, seq<Byte>)>, refused: Option<NfsError>)
    requires Contiguous(delivered) && at == |Text(delivered)| && forall p <- t.pieces :: p != []
    requires n <= |io.log| && Takings(io.log[n..]) == delivered
    modifies io`log
    ensures old(io.log) <= io.log && Takings(io.log[n..]) == result && delivered <= result
    ensures forall k | |old(io.log)| <= k < |io.log| :: io.log[k].Offered?
    ensures refused.Some? ==>
      io.picky && io.log != old(io.log) && Rejects(io.log[|io.log| - 1], |Text(result)|, refused.value)
    ensures refused.None? ==> forall k | |old(io.log)| <= k < |io.log| :: Complaint(io.log[k]).None?
    ensures Contiguous(result)
    ensures refused.None? ==> Text(result) == Text(delivered) + Flatten(t.pieces)
    ensures Text(delivered) <= Text(result) <= Text(delivered) + Flatten(t.pieces)
  {
    hide Contiguous, Text, Takings, Flatten, AllTaken;
    var position := at;
    result := delivered;
    NothingOffered(io.log, t.pieces);
    for k := 0 to |t.pieces|
      invariant Contiguous(result) && position == |Text(result)|
      invariant Text(result) == Text(delivered) + Flatten(t.pieces[..k])
      invariant old(io.log) <= io.log && Takings(io.log[n..]) == result && delivered <= result
      invariant AllTaken(io.log, |old(io.log)|)
    {
      FlattenPrefix(t.pieces, k);
      ghost var log := io.log;
      refused := io.Fill(position, t.pieces[k]);
      OfferTakes(log, n, |old(io.log)|, Offered(position, t.pieces[k], refused));
      if refused.Some? {
        return result, refused;
      }
      assert t.pieces[k] in t.pieces;
      Push(result, t.pieces[k]);
      FlattenStep(t.pieces, k);
      result := result + [(position, t.pieces[k])];
      position := position + |t.pieces[k]|;
    }
    AllTakenTells(io.log, |old(io.log)|);
    assert t.pieces[..|t.pieces|] == t.pieces;
    return result, None;
  }

  /** From `n` on, only pieces that `fill` took. */
  ghost predicate AllTaken(log: seq<ReadAct>, n: nat) {
    n <= |log| && forall k | n <= k < |log| :: log[k].Offered? && Complaint(log[k]).None?
  }

  lemma AllTakenTells(log: seq<ReadAct>, n: nat)
    requires AllTaken(log, n)
    ensures forall k | n <= k < |log| :: log[k].Offered? && Complaint(log[k]).None?
  {
  }

  lemma NothingOffered(log: seq<ReadAct>, pieces: seq<seq<Byte>>)
    ensures AllTaken(log, |log|) && Flatten(pieces[..0]) == []
  {
  }

  lemma FlattenStep(pieces: seq<seq<Byte>>, k: nat)
    requires k < |pieces|
    ensures Flatten(pieces[..k + 1]) == Flatten(pieces[..k]) + pieces[k]
  {
    assert pieces[..k + 1] == pieces[..k] + [pieces[k]];
    FlattenPush(pieces[..k], pieces[k]);
  }

  lemma OfferTakes(log: seq<ReadAct>, n: nat, m: nat, act: ReadAct)
    requires n <= |log| && AllTaken(log, m) && act.Offered?
    ensures var more := log + [act];
      && Takings(more[n..]) == Takings(log[n..]) + (if act.refused.None? then [(act.place, act.piece)] else [])
      && (act.refused.None? ==> AllTaken(more, m))
      && (forall k | m <= k < |more| :: more[k].Offered?)
  {
    hide Takings;
    assert (log + [act])[n..] == log[n..] + [act];
    TakingsPush(log[n..], act);
  }

  /** `fill` did not take the piece for this place, and said why. */
  ghost predicate Rejects(act: ReadAct, place: nat, e: NfsError) {
    act.Offered? && act.place == place && act.refused == Some(e)
  }

  /** The `buffered` window: consecutive ranges from `head` up to `next`. */
  ghost predicate WindowOk(file: seq<Byte>, offset: nat, window: seq<ReadTask>, head: nat, next: nat) {
    && (forall k | 0 <= k < |window| ::
          TaskOk(file, offset, window[k]) && window[k].want > 0 && window[k].start + window[k].want <= next)
    && (if window == [] then head == next
        else window[0].start == head && window[|window| - 1].start + window[|window| - 1].want == next)
    && (forall k | 0 < k < |window| :: window[k].start == window[k - 1].start + window[k - 1].want)
  }

  function Cost(t: ReadTask): nat {
    if t.Finished() || t.want < t.got then 0 else 1 + t.want - t.got
  }

  function Work(window: seq<ReadTask>): nat {
    if window == [] then 0 else Cost(window[0]) + Work(window[1..])
  }

  lemma {:induction false} WorkDrops(window: seq<ReadTask>, k: nat, u: ReadTask)
    requires k < |window| && Cost(u) < Cost(window[k])
    ensures Work(window[k := u]) < Work(window)
  {
    if k > 0 {
      WorkDrops(window[1..], k - 1, u);
      assert window[k := u][1..] == window[1..][k - 1 := u];
    } else {
      assert window[0 := u][1..] == window[1..];
    }
  }

  /** Some prefix of the requested slice has been delivered, piece after piece. */
  ghost predicate PrefixDelivered(file: seq<Byte>, offset: nat, length: nat, delivered: seq<(nat, seq<Byte>)>) {
    Contiguous(delivered) && Text(delivered) <= Slice(file, offset, length)
  }

  /** The ranges before `head` were read in full and delivered. */
  ghost predicate HeadDelivered(file: seq<Byte>, offset: nat, head: nat, delivered: seq<(nat, seq<Byte>)>) {
    Contiguous(delivered) && Text(delivered) == Slice(file, offset, head) && |Text(delivered)| == head
  }

  lemma WindowAdmit(file: seq<Byte>, offset: nat, window: seq<ReadTask>, head: nat, next: nat, want: nat)
    requires WindowOk(file, offset, window, head, next) && want > 0
    ensures WindowOk(file, offset, window + [ReadTask(next, want, 0, [], None, false)], head, next + want)
  {
    hide TaskOk;
    EmptyTask(file, offset, next, want);
  }

  lemma EmptyTask(file: seq<Byte>, offset: nat, next: nat, want: nat)
    ensures TaskOk(file, offset, ReadTask(next, want, 0, [], None, false))
  {
  }

  lemma WindowResume(file: seq<Byte>, offset: nat, window: seq<ReadTask>, head: nat, next: nat, k: nat, u: ReadTask)
    requires WindowOk(file, offset, window, head, next) && k < |window| && TaskOk(file, offset, u)
    requires u.start == window[k].start && u.want == window[k].want
    ensures WindowOk(file, offset, window[k := u], head, next)
  {
    hide TaskOk;
  }

  lemma WindowPop(file: seq<Byte>, offset: nat, window: seq<ReadTask>, head: nat, next: nat)
    requires WindowOk(file, offset, window, head, next) && window != []
    ensures WindowOk(file, offset, window[1..], head + window[0].want, next)
  {
    hide TaskOk;
  }

  /** Delivering a sound head task extends the delivered prefix by its bytes. */
  lemma DeliverHead(file: seq<Byte>, offset: nat, head: nat, length: nat, t: ReadTask,
                    before: seq<(nat, seq<Byte>)>, after: seq<(nat, seq<Byte>)>)
    requires HeadDelivered(file, offset, head, before) && TaskOk(file, offset, t) && t.start == head
    requires head + t.want <= length && Contiguous(after) && Text(after) <= Text(before) + Flatten(t.pieces)
    ensures PrefixDelivered(file, offset, length, after)
    ensures Text(after) == Text(before) + Flatten(t.pieces) ==> HeadDelivered(file, offset, head + t.got, after)
    ensures Text(after) == Text(before) + Flatten(t.pieces) && t.ended ==> Text(after) == Slice(file, offset, length)
  {
    hide Contiguous, Text, Flatten;
    SliceJoin(file, offset, head, t.got);
  }

  /** Where the range that begins at `start` ends. */
  function RangeEnd(start: nat, chunk: nat, length: nat): nat {
    if start + chunk < length then start + chunk else length
  }

  /** Every range of the window is one chunk, or ends with the request. */
  ghost predicate Sliced(window: seq<ReadTask>, chunk: nat, length: nat) {
    forall k | 0 <= k < |window| ::
      window[k].start < length && window[k].start + window[k].want == RangeEnd(window[k].start, chunk, length)
  }

  /** A READ that reaches to the end of a range, and is why the range failed. */
  ghost predicate Fails(act: ReadAct, at: nat, end: nat, e: NfsError) {
    act.Asked? && Complaint(act) == Some(e) && at <= act.at && act.at + act.count == end
  }

  ghost predicate RangeFailed(log: seq<ReadAct>, n: nat, at: nat, end: nat, e: NfsError) {
    exists k | n <= k < |log| :: Fails(log[k], at, end, e)
  }

  /** A range that failed has a READ to blame. */
  ghost predicate Blamed(log: seq<ReadAct>, n: nat, offset: nat, t: ReadTask) {
    t.error.Some? ==> RangeFailed(log, n, offset + t.start, offset + t.start + t.want, t.error.value)
  }

  ghost predicate AllBlamed(log: seq<ReadAct>, n: nat, offset: nat, window: seq<ReadTask>) {
    forall k | 0 <= k < |window| :: Blamed(log, n, offset, window[k])
  }

  /** The error is that of the range right behind what was delivered, all ranges ahead of
      it having been delivered in full, or `fill` refused the piece for that place. */
  ghost predicate Stopped(e: NfsError, log: seq<ReadAct>, n: nat, offset: nat, length: nat, chunk: nat, head: nat,
                          picky: bool) {
    || (head < length && RangeFailed(log, n, offset + head, offset + RangeEnd(head, chunk, length), e))
    || (picky && n < |log| && Rejects(log[|log| - 1], head, e))
  }

  /** Each READ stays in the request and within eight chunks of what had been delivered. */
  ghost predicate Bounded(log: seq<ReadAct>, n: nat, offset: nat, length: nat, chunk: nat) {
    forall k | n <= k < |log| && log[k].Asked? :: InReach(log, n, k, offset, length, chunk)
  }

  ghost predicate InReach(log: seq<ReadAct>, n: nat, k: nat, offset: nat, length: nat, chunk: nat)
    requires n <= k < |log| && log[k].Asked?
  {
    && offset <= log[k].at && log[k].at + log[k].count <= offset + length
    && log[k].at + log[k].count <= offset + |Text(Takings(log[n..k]))| + READ_CONCURRENCY * chunk
  }

  lemma BoundedAsk(log: seq<ReadAct>, n: nat, act: ReadAct, offset: nat, length: nat, chunk: nat)
    requires Bounded(log, n, offset, length, chunk) && n <= |log| && act.Asked?
    requires offset <= act.at && act.at + act.count <= offset + length
    requires act.at + act.count <= offset + |Text(Takings(log[n..]))| + READ_CONCURRENCY * chunk
    ensures Bounded(log + [act], n, offset, length, chunk)
  {
    hide Takings, Text;
    var more := log + [act];
    forall k | n <= k < |more| && more[k].Asked? ensures InReach(more, n, k, offset, length, chunk) {
      if k < |log| {
        assert InReach(log, n, k, offset, length, chunk);
        assert more[n..k] == log[n..k];
      } else {
        assert more[n..k] == log[n..];
      }
    }
  }

  lemma BoundedOffers(log: seq<ReadAct>, more: seq<ReadAct>, n: nat, offset: nat, length: nat, chunk: nat)
    requires Bounded(log, n, offset, length, chunk) && n <= |log| && log <= more
    requires forall k | |log| <= k < |more| :: more[k].Offered?
    ensures Bounded(more, n, offset, length, chunk)
  {
    hide Takings, Text;
    forall k | n <= k < |more| && more[k].Asked? ensures InReach(more, n, k, offset, length, chunk) {
      assert log[k] == more[k];
      assert InReach(log, n, k, offset, length, chunk);
      assert more[n..k] == log[n..k];
    }
  }

  lemma BlamedStays(log: seq<ReadAct>, more: seq<ReadAct>, n: nat, offset: nat, window: seq<ReadTask>)
    requires AllBlamed(log, n, offset, window) && log <= more
    ensures AllBlamed(more, n, offset, window)
  {
    hide Complaint;
    forall i | 0 <= i < |window| ensures Blamed(more, n, offset, window[i]) {
      var t := window[i];
      if t.error.Some? {
        assert Blamed(log, n, offset, t);
        var k :| n <= k < |log| && Fails(log[k], offset + t.start, offset + t.start + t.want, t.error.value);
        assert Fails(more[k], offset + t.start, offset + t.start + t.want, t.error.value);
      }
    }
  }

  /** The READ just answered is why the range failed, if it did. */
  lemma BlameReply(log: seq<ReadAct>, n: nat, offset: nat, window: seq<ReadTask>, i: nat, u: ReadTask, act: ReadAct)
    requires AllBlamed(log, n, offset, window) && i < |window| && n <= |log| && act.Asked?
    requires u.start == window[i].start && u.want == window[i].want && u.error == Complaint(act)
    requires offset + u.start <= act.at && act.at + act.count == offset + u.start + u.want
    ensures AllBlamed(log + [act], n, offset, window[i := u])
  {
    hide Complaint;
    BlamedStays(log, log + [act], n, offset, window);
    if u.error.Some? {
      assert Fails((log + [act])[|log|], offset + u.start, offset + u.start + u.want, u.error.value);
    }
  }

  lemma TimesMonotone(a: nat, b: nat, c: nat)
    requires a <= b
    ensures a * c <= b * c
  {
  }

  /** The window reaches at most as many chunks ahead as it has ranges. */
  lemma {:induction false} WindowReach(file: seq<Byte>, offset: nat, window: seq<ReadTask>, head: nat, next: nat,
                                       chunk: nat, length: nat, k: nat)
    requires WindowOk(file, offset, window, head, next) && Sliced(window, chunk, length) && k < |window|
    ensures window[k].start + window[k].want <= head + (k + 1) * chunk
  {
    hide TaskOk;
    assert (k + 1) * chunk == k * chunk + chunk;
    if k > 0 {
      WindowReach(file, offset, window, head, next, chunk, length, k - 1);
      assert window[k].start == window[k - 1].start + window[k - 1].want;
    }
  }

  /** `read_chunks_with`: for any chunk size, short replies and completion order,
      success delivers exactly the requested slice of the file and its length; an
      error leaves every range ahead of the failing one delivered, and is the one that
      range's READ or `fill` gave. */
  method ReadChunksWith(io: ReadIo, offset: nat, length: nat)
    returns (r: Result<nat>, delivered: seq<(nat, seq<Byte>)>)
    modifies io`log
    ensures old(io.log) <= io.log && Takings(io.log[|old(io.log)|..]) == delivered
    ensures offset + length >= U64 ==>
      r == Err(InvalidInput("read range overflows u64")) && delivered == [] && io.log == old(io.log)
    ensures PrefixDelivered(io.file, offset, length, delivered)
    ensures r.Ok? ==> Text(delivered) == Slice(io.file, offset, length) && r.value == |Slice(io.file, offset, length)|
    ensures r.Err? && offset + length < U64 ==>
      Stopped(r.error, io.log, |old(io.log)|, offset, length, AtLeastOne(io.chunkSize), |Text(delivered)|,
              io.picky)
    ensures Bounded(io.log, |old(io.log)|, offset, length, AtLeastOne(io.chunkSize))
  {
    hide Contiguous, Text, Flatten, TaskOk, WindowOk, Work, HeadDelivered, PrefixDelivered, Slice;
    hide Takings, AllBlamed, Bounded, RangeFailed, Rejects, Complaint, Sliced;
    delivered := [];
    ghost var n := |io.log|;
    Start(io.file, offset);
    LogStarts(io.log, offset, length, AtLeastOne(io.chunkSize));
    HeadIsPrefix(io.file, offset, 0, length, delivered);
    if offset + length >= U64 {
      return Err(InvalidInput("read range overflows u64")), delivered;
    }
    var chunk := AtLeastOne(io.chunkSize);
    var window: seq<ReadTask>, next: nat, completed: nat := [], 0, 0;
    while window != [] || next < length
      invariant completed <= next <= length && WindowOk(io.file, offset, window, completed, next)
      invariant HeadDelivered(io.file, offset, completed, delivered)
      invariant |window| <= READ_CONCURRENCY && Sliced(window, chunk, length)
      invariant old(io.log) <= io.log && Takings(io.log[n..]) == delivered
      invariant AllBlamed(io.log, n, offset, window) && Bounded(io.log, n, offset, length, chunk)
      decreases length - next, |window|, Work(window)
    {
      HeadIsPrefix(io.file, offset, completed, length, delivered);
      ghost var log := io.log;
      if {
        case |window| < READ_CONCURRENCY && next < length =>
          var want := RangeEnd(next, chunk, length) - next;
          WindowAdmit(io.file, offset, window, completed, next, want);
          BlameAdmitted(io.log, n, offset, window, ReadTask(next, want, 0, [], None, false));
          SlicedAdmit(window, chunk, length, ReadTask(next, want, 0, [], None, false));
          window, next := window + [ReadTask(next, want, 0, [], None, false)], next + want;
        case exists k :: 0 <= k < |window| && !window[k].Finished() =>
          var k: nat :| k < |window| && !window[k].Finished();
          WindowTask(io.file, offset, window, completed, next, k);
          var u, reply := ResumeRead(io, offset, window[k]);
          ghost var act := Asked(offset + window[k].start + window[k].got, window[k].want - window[k].got, reply);
          AskBounded(io.file, offset, window, completed, next, chunk, length, k, act, log, n);
          BlameReply(log, n, offset, window, k, u, act);
          AskTakesNothing(log, n, act);
          WindowResume(io.file, offset, window, completed, next, k, u);
          SlicedResume(window, chunk, length, k, u);
          WorkDrops(window, k, u);
          window := window[k := u];
        case window != [] && window[0].Finished() =>
          var t := window[0];
          WindowTask(io.file, offset, window, completed, next, 0);
          if t.error.Some? {
            HeadBlamed(io.log, n, offset, length, chunk, window);
            return Err(t.error.value), delivered;
          }
          var after, refused := Deliver(io, t, t.start, delivered, n);
          BoundedOffers(log, io.log, n, offset, length, chunk);
          DeliverHead(io.file, offset, completed, length, t, delivered, after);
          delivered := after;
          if refused.Some? {
            return Err(refused.value), delivered;
          }
          completed := completed + t.got;
          HeadIsPrefix(io.file, offset, completed, length, delivered);
          if t.got < t.want {
            return Ok(completed), delivered;
          }
          WindowPop(io.file, offset, window, t.start, next);
          BlamedStays(log, io.log, n, offset, window);
          BlamePopped(io.log, n, offset, window);
          SlicedPop(window, chunk, length);
          window := window[1..];
      }
    }
    HeadIsPrefix(io.file, offset, completed, length, delivered);
    WindowDone(io.file, offset, completed, next);
    return Ok(completed), delivered;
  }

  function AtLeastOne(n: nat): nat { if n == 0 then 1 else n }

  lemma LogStarts(log: seq<ReadAct>, offset: nat, length: nat, chunk: nat)
    ensures Takings(log[|log|..]) == [] && AllBlamed(log, |log|, offset, [])
    ensures Bounded(log, |log|, offset, length, chunk)
    ensures Sliced([], chunk, length)
  {
  }

  lemma AskTakesNothing(log: seq<ReadAct>, n: nat, act: ReadAct)
    requires n <= |log| && act.Asked?
    ensures Takings((log + [act])[n..]) == Takings(log[n..])
  {
    assert (log + [act])[n..] == log[n..] + [act];
    TakingsPush(log[n..], act);
  }

  lemma BlameAdmitted(log: seq<ReadAct>, n: nat, offset: nat, window: seq<ReadTask>, t: ReadTask)
    requires AllBlamed(log, n, offset, window) && t.error.None?
    ensures AllBlamed(log, n, offset, window + [t])
  {
  }

  lemma BlamePopped(log: seq<ReadAct>, n: nat, offset: nat, window: seq<ReadTask>)
    requires AllBlamed(log, n, offset, window) && window != []
    ensures AllBlamed(log, n, offset, window[1..])
  {
  }

  lemma HeadBlamed(log: seq<ReadAct>, n: nat, offset: nat, length: nat, chunk: nat, window: seq<ReadTask>)
    requires AllBlamed(log, n, offset, window) && Sliced(window, chunk, length) && window != []
    requires window[0].error.Some?
    ensures var t := window[0];
      && t.start < length
      && RangeFailed(log, n, offset + t.start, offset + RangeEnd(t.start, chunk, length), t.error.value)
  {
    hide RangeFailed;
    assert Blamed(log, n, offset, window[0]);
    assert offset + window[0].start + window[0].want == offset + RangeEnd(window[0].start, chunk, length);
  }

  lemma SlicedAdmit(window: seq<ReadTask>, chunk: nat, length: nat, t: ReadTask)
    requires Sliced(window, chunk, length) && t.start < length && t.start + t.want == RangeEnd(t.start, chunk, length)
    ensures Sliced(window + [t], chunk, length)
  {
  }

  lemma SlicedResume(window: seq<ReadTask>, chunk: nat, length: nat, k: nat, u: ReadTask)
    requires Sliced(window, chunk, length) && k < |window| && u.start == window[k].start && u.want == window[k].want
    ensures Sliced(window[k := u], chunk, length)
  {
  }

  lemma SlicedPop(window: seq<ReadTask>, chunk: nat, length: nat)
    requires Sliced(window, chunk, length) && window != []
    ensures Sliced(window[1..], chunk, length)
  {
  }

  /** A READ of the window's range `k` stays in reach. */
  lemma AskBounded(file: seq<Byte>, offset: nat, window: seq<ReadTask>, head: nat, next: nat, chunk: nat, length: nat,
                   k: nat, act: ReadAct, log: seq<ReadAct>, n: nat)
    requires WindowOk(file, offset, window, head, next) && Sliced(window, chunk, length)
    requires |window| <= READ_CONCURRENCY && next <= length && k < |window| && n <= |log|
    requires act.Asked? && offset <= act.at && act.at + act.count == offset + window[k].start + window[k].want
    requires Bounded(log, n, offset, length, chunk) && |Text(Takings(log[n..]))| == head
    ensures Bounded(log + [act], n, offset, length, chunk)
  {
    hide Bounded, TaskOk, Takings, Text;
    WindowReach(file, offset, window, head, next, chunk, length, k);
    TimesMonotone(k + 1, READ_CONCURRENCY, chunk);
    BoundedAsk(log, n, act, offset, length, chunk);
  }

  lemma Start(file: seq<Byte>, offset: nat)
    ensures WindowOk(file, offset, [], 0, 0) && HeadDelivered(file, offset, 0, [])
  {
  }

  lemma WindowDone(file: seq<Byte>, offset: nat, head: nat, next: nat)
    requires WindowOk(file, offset, [], head, next)
    ensures head == next
  {
  }

  lemma HeadIsPrefix(file: seq<Byte>, offset: nat, head: nat, length: nat, delivered: seq<(nat, seq<Byte>)>)
    requires HeadDelivered(file, offset, head, delivered) && head <= length
    ensures PrefixDelivered(file, offset, length, delivered)
    ensures Contiguous(delivered) && Text(delivered) == Slice(file, offset, head) && |Text(delivered)| == head
  {
    hide Contiguous, Text;
    SliceJoin(file, offset, head, length - head);
  }

  lemma WindowTask(file: seq<Byte>, offset: nat, window: seq<ReadTask>, head: nat, next: nat, k: nat)
    requires WindowOk(file, offset, window, head, next) && k < |window|
    ensures TaskOk(file, offset, window[k]) && 0 < window[k].want && window[k].got <= window[k].want
    ensures window[0].start == head && head + window[0].want <= next
    ensures forall p <- window[k].pieces :: p != []
  {
  }

  const UNREADABLE := ModeViolation("file is not readable")

  /** A READ behind `offset` gave this error. */
  ghost predicate Complained(log: seq<ReadAct>, n: nat, offset: nat, e: NfsError) {
    exists k | n <= k < |log| :: log[k].Asked? && offset <= log[k].at && Complaint(log[k]) == Some(e)
  }

  lemma ErrorIsOfRead(e: NfsError, log: seq<ReadAct>, n: nat, m: nat, offset: nat, current: nat, length: nat,
                      chunk: nat, head: nat)
    requires Stopped(e, log, m, current, length, chunk, head, false) && n <= m && offset <= current
    ensures Complained(log, n, offset, e)
  {
    hide Complaint;
    var k :| m <= k < |log| && Fails(log[k], current + head, current + RangeEnd(head, chunk, length), e);
    assert log[k].Asked? && offset <= log[k].at;
  }

  /** `FileResource::read_at`.  A size of -1 reads in bounded windows to the end
      of the file and returns exactly the rest of it; the reply pieces are kept joined. */
  method ReadAt(io: ReadIo, readable: bool, offset: nat, size: int) returns (r: Result<seq<Byte>>)
    requires offset < U64 && |io.file| < U64 && 0 < io.chunkSize < U32 && !io.picky
    modifies io`log
    ensures old(io.log) <= io.log
    ensures !readable ==> r == Err(UNREADABLE)
    ensures readable && size < -1 ==> r.Err? && r.error.InvalidInput?
    ensures readable && size >= 0 && offset + size >= U64 ==> r.Err? && r.error.InvalidInput?
    ensures !readable || size < -1 || offset + size >= U64 ==> io.log == old(io.log)
    ensures readable && size >= -1 && offset + size < U64 && r.Err? ==>
      Complained(io.log, |old(io.log)|, offset, r.error)
    ensures readable && size >= 0 && r.Ok? ==> r.value == Slice(io.file, offset, size)
    ensures readable && size == -1 && r.Ok? ==> r.value == Slice(io.file, offset, |io.file|)
  {
    hide Text, Slice, PrefixDelivered, Takings, Bounded, Stopped, Complained;
    if !readable {
      return Err(UNREADABLE);
    }
    if size < -1 {
      return Err(InvalidInput("read size must be -1 or non-negative"));
    }
    var current: nat, text, going := offset, [], true;
    SliceEnds(io.file, offset, 0);
    while going
      invariant old(io.log) <= io.log && (current == offset && going ==> io.log == old(io.log))
      invariant going ==> current < U64 && offset <= current && (size != -1 ==> current == offset)
      invariant going ==> text == Slice(io.file, offset, current - offset) && |text| == current - offset
      invariant !going && size != -1 ==> offset + size < U64
      invariant !going ==> text == Slice(io.file, offset, if size == -1 then |io.file| else size)
      decreases going, U64 - current
    {
      var left := U64 - 1 - current;
      var length: nat := if size != -1 then size
                         else if io.chunkSize * READ_CONCURRENCY <= left then io.chunkSize * READ_CONCURRENCY else left;
      if length == 0 {
        going := false;
        SliceEnds(io.file, offset, current - offset);
      } else {
        ghost var n := |io.log|;
        var count, delivered := ReadChunksWith(io, current, length);
        if count.Err? {
          if current + length < U64 {
            ErrorIsOfRead(count.error, io.log, |old(io.log)|, n, offset, current, length,
                          AtLeastOne(io.chunkSize), |Text(delivered)|);
          }
          return Err(count.error);
        }
        SliceJoin(io.file, offset, current - offset, length);
        SliceEnds(io.file, offset, current - offset);
        SliceEnds(io.file, current, length);
        text := text + Text(delivered);
        going := size == -1 && count.value >= length;
        if going {
          current := current + count.value;
        } else {
          SliceEnds(io.file, offset, current + length - offset);
        }
      }
    }
    return Ok(text);
  }

  lemma SliceEnds(file: seq<Byte>, from: nat, count: nat)
    ensures count == 0 ==> Slice(file, from, count) == []
    ensures |Slice(file, from, count)| <= count
    ensures |Slice(file, from, count)| == count && count > 0 ==> from + count <= |file|
    ensures from + count >= |file| ==> Slice(file, from, count) == Slice(file, from, |file|)
    ensures |Slice(file, from, count)| < count ==> from + count >= |file|
  {
  }

  /** A file is what its server shows: every byte comes from the cache, else from stable storage. */
  ghost predicate Shows(server: Server, file: seq<Byte>) {
    && (forall p: nat | p < |file| :: Visible(server, p, file[p]))
    && (forall p: nat | p in server.stable || p in server.cache :: p < |file|)
  }

  /** Reading back a range that was written durably returns what was written. */
  lemma DurableWritesReadBack(server: Server, file: seq<Byte>, offset: nat, data: seq<Byte>)
    requires Shows(server, file) && Durable(server, offset, data)
    ensures Slice(file, offset, |data|) == data
  {
    forall i | 0 <= i < |data| ensures offset + i < |file| && file[offset + i] == data[i] {
      assert Settled(server, offset + i, data[i]);
    }
    if data != [] {
      var last := |data| - 1;
      assert Settled(server, offset + last, data[last]);
      assert Slice(file, offset, |data|) == file[offset..offset + |data|];
    }
  }
}
