/** The relative position of an open file (`read`, `readinto`, `write`, `seek` and
    `truncate` in src/python_adapter.rs) over the read and write engines.  All but
    `truncate` run under the file's relative gate, one at a time. */
module FileCursor {
  import opened Errors
  import S = StableStorage
  import R = ReadEngine
  import L = WriteLog
  import W = WriteEngine

  const U64: nat := 0x1_0000_0000_0000_0000
  const SEEK_SET := 0
  const SEEK_CUR := 1
  const SEEK_END := 2

  datatype Cursor = Cursor(position: nat, uncertain: bool)

  /** A call and how it ended: the text a read returned, the data a write was given
      and its result, `size` what the server said about the file's size. */
  datatype Op =
    | Read(text: Result<seq<S.Byte>>)
    | Write(append: bool, size: Result<nat>, data: seq<S.Byte>, result: Result<nat>)
    | Seek(offset: int, whence: int, size: Result<nat>)

  function SaturatingAdd(a: nat, b: nat): nat {
    if a + b < U64 then a + b else U64 - 1
  }

  const REFUSED := PositionUncertain("file position is uncertain; seek to an absolute offset")

  const UNWRITABLE := ModeViolation("file is not writable")

  function SeekBase(c: Cursor, whence: int, size: Result<nat>): Result<nat> {
    if whence == SEEK_SET then Ok(0)
    else if whence == SEEK_CUR then Ok(c.position)
    else if whence == SEEK_END then size
    else Err(InvalidInput("whence must be SEEK_SET, SEEK_CUR, or SEEK_END"))
  }

  /** What a call does to the cursor, and the number it returns. */
  function Step(c: Cursor, op: Op): (Cursor, Result<nat>) {
    match op
    case Read(text) =>
      if c.uncertain then (c, Err(REFUSED))
      else if text.Err? then (c, Err(text.error))
      else (c.(position := SaturatingAdd(c.position, |text.value|)), Ok(|text.value|))
    case Write(append, size, _, result) =>
      if c.uncertain then (c, Err(REFUSED))
      else if append && size.Err? then (c, size)
      else
        var base := if append then size.value else c.position;
        if result.Ok? then (c.(position := SaturatingAdd(base, result.value)), result)
        else
          var outcome := SurfaceOutcome(result.error);
          if outcome.None? then (c, result)
          else if outcome.value.outcome.Uncertain? then (c.(uncertain := true), result)
          else if outcome.value.completedBytes.Some? then
            (c.(position := SaturatingAdd(base, outcome.value.completedBytes.value)), result)
          else (c, result)
    case Seek(offset, whence, size) =>
      if whence != SEEK_SET && c.uncertain then (c, Err(REFUSED))
      else
        var base := SeekBase(c, whence, size);
        if base.Err? then (c, base)
        else if !(0 <= base.value + offset < U64) then (c, Err(InvalidInput("negative seek position")))
        else
          var next := base.value + offset;
          (Cursor(next, c.uncertain && whence != SEEK_SET), Ok(next))
  }

  function After(c: Cursor, ops: seq<Op>): Cursor
    decreases |ops|
  {
    if ops == [] then c else After(Step(c, ops[0]).0, ops[1..])
  }

  function Results(c: Cursor, ops: seq<Op>): seq<Result<nat>>
    decreases |ops|
  {
    if ops == [] then [] else [Step(c, ops[0]).1] + Results(Step(c, ops[0]).0, ops[1..])
  }

  // The transfers behind the calls.

  /** A read returned the bytes of `file` at the position; a write that succeeded
      wrote all of its data. */
  ghost predicate Tells(c: Cursor, op: Op, file: seq<S.Byte>) {
    match op
    case Read(text) =>
      !c.uncertain && text.Ok? ==>
        text.value == R.Slice(file, c.position, |text.value|) && c.position + |text.value| < U64
    case Write(append, size, data, result) =>
      !c.uncertain && result.Ok? ==> (append ==> size.Ok?) && result.value == |data|
    case Seek(_, _, _) => true
  }

  /** Every call of a history told the truth about the file it saw. */
  ghost predicate Truthful(c: Cursor, ops: seq<Op>, shown: seq<seq<S.Byte>>) {
    |shown| == |ops| && forall k | 0 <= k < |ops| :: Tells(After(c, ops[..k]), ops[k], shown[k])
  }

  lemma {:induction false} AfterConcat(c: Cursor, before: seq<Op>, ops: seq<Op>)
    ensures After(c, before + ops) == After(After(c, before), ops)
    decreases |before|
  {
    if before == [] {
      assert before + ops == ops;
    } else {
      AfterConcat(Step(c, before[0]).0, before[1..], ops);
      assert (before + ops)[1..] == before[1..] + ops;
    }
  }

  lemma AfterPush(c: Cursor, ops: seq<Op>, op: Op)
    ensures After(c, ops + [op]) == Step(After(c, ops), op).0
  {
    hide Step;
    AfterConcat(c, ops, [op]);
    assert ([op])[1..] == [];
  }

  lemma TruthfulPush(c: Cursor, ops: seq<Op>, shown: seq<seq<S.Byte>>, op: Op, file: seq<S.Byte>)
    requires Truthful(c, ops, shown) && Tells(After(c, ops), op, file)
    ensures Truthful(c, ops + [op], shown + [file])
  {
    hide Tells, After;
    var more := ops + [op];
    forall k | 0 <= k < |more| ensures Tells(After(c, more[..k]), more[k], (shown + [file])[k]) {
      assert more[..|ops|] == ops && (k < |ops| ==> more[..k] == ops[..k]);
    }
  }

  /** One open file.  `ops` is the history of its calls and `shown` the content of the
      file each of them saw; `Valid` says that the cursor follows from that history
      and that the history is true. */
  class FileResource {
    var position: nat
    var uncertain: bool
    const readable: bool
    const writable: bool
    const append: bool
    const writer: W.WriteIo
    ghost const start: Cursor
    ghost var ops: seq<Op>
    ghost var shown: seq<seq<S.Byte>>

    ghost predicate Valid()
      reads this
    {
      position < U64 && Cursor(position, uncertain) == After(start, ops) && Truthful(start, ops, shown)
    }

    constructor (position: nat, readable: bool, writable: bool, append: bool, writer: W.WriteIo)
      requires position < U64
      ensures Valid() && this.position == position && !uncertain && this.writer == writer
      ensures this.readable == readable && this.writable == writable && this.append == append
      ensures ops == [] && start == Cursor(position, false)
    {
      this.position, this.uncertain, this.writer := position, false, writer;
      this.readable, this.writable, this.append := readable, writable, append;
      this.start, this.ops, this.shown := Cursor(position, false), [], [];
    }

    /** Notes the call just made. */
    ghost method Record(op: Op, file: seq<S.Byte>)
      requires Truthful(start, ops, shown) && Tells(After(start, ops), op, file)
      requires Cursor(position, uncertain) == Step(After(start, ops), op).0 && position < U64
      modifies this`ops, this`shown
      ensures Valid() && ops == old(ops) + [op] && shown == old(shown) + [file]
    {
      hide Step, Tells, Truthful, After;
      AfterPush(start, ops, op);
      TruthfulPush(start, ops, shown, op, file);
      ops, shown := ops + [op], shown + [file];
    }

    /** A relative read returns the bytes of the file at the position, all that was
        asked for up to the end of the file, and moves exactly behind them. */
    method Read(reader: R.ReadIo, size: int) returns (r: Result<seq<S.Byte>>)
      requires Valid() && |reader.file| < U64 && 0 < reader.chunkSize < R.U32 && !reader.picky
      modifies this, reader`log
      ensures Valid() && ops == old(ops) + [Op.Read(r)] && shown == old(shown) + [reader.file]
      ensures old(uncertain) ==> r == Err(REFUSED)
      ensures !old(uncertain) && !readable ==> r == Err(R.UNREADABLE)
      ensures old(uncertain) || !readable || size < -1 || old(position) + size >= U64 ==>
        r.Err? && reader.log == old(reader.log)
      ensures old(reader.log) <= reader.log
      ensures r.Ok? ==> r.value == R.Slice(reader.file, old(position), if size < 0 then |reader.file| else size)
      ensures position == old(position) + (if r.Ok? then |r.value| else 0) && uncertain == old(uncertain)
      ensures r.Err? && !old(uncertain) && readable && size >= -1 && old(position) + size < U64 ==>
        R.Complained(reader.log, |old(reader.log)|, old(position), r.error)
    {
      hide After, Truthful;
      if uncertain {
        r := Err(REFUSED);
        Record(Op.Read(r), reader.file);
        return;
      }
      var at := position;
      r := R.ReadAt(reader, readable, at, size);
      if r.Ok? {
        SliceFits(reader.file, at, if size == -1 then |reader.file| else size);
        position := SaturatingAdd(at, |r.value|);
      }
      Record(Op.Read(r), reader.file);
    }

    /** A relative write puts its data at the position, or at the end of the file in
        append mode; success leaves the position behind bytes that are durable, and a
        failure of unknown outcome blocks it. */
    method Write(data: seq<S.Byte>, size: Result<nat>) returns (r: Result<nat>)
      requires Valid() && (size.Ok? ==> size.value < U64)
      modifies this, writer
      ensures Valid() && ops == old(ops) + [Op.Write(append, size, data, r)]
      ensures old(uncertain) ==> r == Err(REFUSED)
      ensures !old(uncertain) && append && size.Err? ==> r == size
      ensures !old(uncertain) && !(append && size.Err?) && !writable ==> r == Err(UNWRITABLE)
      ensures r.Err? && (old(uncertain) || (append && size.Err?) || !writable) ==>
        writer.log == old(writer.log) && writer.server == old(writer.server) && writer.commits == old(writer.commits)
      ensures r.Err? && !old(uncertain) && !(append && size.Err?) && writable
              && (if append then size.value else old(position)) + |data| < U64 ==>
        && W.Justified(r.error, writer.log, |old(writer.log)|, |writer.Current().acked|, |data|)
        && (writer.faults > old(writer.faults) || writer.commits == old(writer.commits) + 3)
      ensures r.Ok? ==> writable && (append ==> size.Ok?)
      ensures r.Ok? ==>
        var base := if append then size.value else old(position);
        && r.value == |data| && position == base + |data| && !uncertain
        && (writer.carriesVerifier && S.Calm(base, |data|, writer.loud) ==> S.Durable(writer.server, base, data))
      ensures uncertain ==
        (old(uncertain) || (r.Err? && !(append && size.Err?) && SurfaceUncertain(r.error)))
      ensures old(writer.log) <= writer.log
      ensures forall k | |old(writer.log)| < k < |writer.log| && L.Unclear(writer.log[k]) :: uncertain
      ensures r.Err? && writer.log != old(writer.log) && writer.Current().acked != map[] ==> uncertain
      ensures r.Err? && L.SomeAccepted(writer.log, |old(writer.log)|) ==>
        (!uncertain <==> W.Forgotten(writer.log, |old(writer.log)|, writer.Current()))
    {
      hide After, Truthful, S.Durable, S.Calm, W.Forgotten, W.Justified, L.Unclear, L.Accepted, L.Scan;
      if uncertain {
        r := Err(REFUSED);
        Record(Op.Write(append, size, data, r), []);
        return;
      }
      var at := position;
      if append {
        if size.Err? {
          r := size;
          Record(Op.Write(append, size, data, r), []);
          return;
        }
        at := size.value;
      }
      r := WriteComplete(at, data);
      if r.Ok? {
        position := SaturatingAdd(at, r.value);
      } else {
        var outcome := SurfaceOutcome(r.error);
        if outcome.Some? {
          if outcome.value.outcome.Uncertain? {
            uncertain := true;
          } else if outcome.value.completedBytes.Some? {
            position := SaturatingAdd(at, outcome.value.completedBytes.value);
          }
        }
      }
      Record(Op.Write(append, size, data, r), []);
    }

    /** `write_complete_at`. */
    method WriteComplete(at: nat, data: seq<S.Byte>) returns (r: Result<nat>)
      requires at < U64
      modifies writer
      ensures old(writer.log) <= writer.log
      ensures !writable ==>
        && r == Err(UNWRITABLE) && writer.log == old(writer.log) && writer.server == old(writer.server)
        && writer.commits == old(writer.commits) && writer.faults == old(writer.faults)
      ensures writable && r.Err? && at + |data| < U64 ==>
        && W.Justified(r.error, writer.log, |old(writer.log)|, |writer.Current().acked|, |data|)
        && (writer.faults > old(writer.faults) || writer.commits == old(writer.commits) + 3)
      ensures writable && at + |data| < U64 && W.Undisturbed(writer, old(writer.faults), old(writer.server)) ==> r.Ok?
      ensures writable && at + |data| >= U64 ==>
        r.Err? && r.error.InvalidInput? && writer.log == old(writer.log) && writer.server == old(writer.server)
      ensures r.Ok? ==> r.value == |data| && at + |data| < U64
                        && (writer.carriesVerifier && S.Calm(at, |data|, writer.loud) ==>
                              S.Durable(writer.server, at, data))
      ensures forall k | |old(writer.log)| < k < |writer.log| && L.Unclear(writer.log[k]) ::
        r.Err? && SurfaceUncertain(r.error)
      ensures r.Err? && writer.log != old(writer.log) && writer.Current().acked != map[] ==> SurfaceUncertain(r.error)
      ensures r.Err? && L.SomeAccepted(writer.log, |old(writer.log)|) ==>
        (!SurfaceUncertain(r.error) <==> W.Forgotten(writer.log, |old(writer.log)|, writer.Current()))
    {
      if !writable {
        return Err(UNWRITABLE);
      }
      ghost var n := |writer.log|;
      ghost var commits := writer.commits;
      r := W.WriteAllWith(writer, at, data);
      if at + |data| < U64 && data != [] {
        UncertaintyReachesCursor(r, writer, n, at, data, writer.commits - commits);
      }
    }

    /** Only an absolute seek works while the position is uncertain, and it alone
        makes it certain; a seek out of 64 bits is refused. */
    method Seek(offset: int, whence: int, size: Result<nat>) returns (r: Result<nat>)
      requires Valid()
      modifies this
      ensures Valid() && ops == old(ops) + [Op.Seek(offset, whence, size)]
      ensures r.Ok? <==>
        && (whence == SEEK_SET || !old(uncertain))
        && (whence == SEEK_SET || whence == SEEK_CUR || (whence == SEEK_END && size.Ok?))
        && 0 <= offset + (if whence == SEEK_SET then 0 else if whence == SEEK_CUR then old(position) else size.value)
             < U64
      ensures r.Ok? ==> position == r.value && uncertain == (old(uncertain) && whence != SEEK_SET)
      ensures r.Ok? && whence == SEEK_SET ==> r.value == offset
      ensures r.Ok? && whence == SEEK_CUR ==> r.value == old(position) + offset
      ensures r.Ok? && whence == SEEK_END ==> r.value == size.value + offset
      ensures r.Err? ==> position == old(position) && uncertain == old(uncertain)
      ensures r.Err? && (whence == SEEK_SET || !old(uncertain)) ==>
        if whence == SEEK_END && size.Err? then r == size else r.error.InvalidInput?
      ensures whence != SEEK_SET && old(uncertain) ==> r == Err(REFUSED)
    {
      hide After, Truthful;
      if whence != SEEK_SET && uncertain {
        Record(Op.Seek(offset, whence, size), []);
        return Err(REFUSED);
      }
      var base := SeekBase(Cursor(position, uncertain), whence, size);
      if base.Err? {
        Record(Op.Seek(offset, whence, size), []);
        return base;
      }
      var next := base.value + offset;
      if !(0 <= next < U64) {
        Record(Op.Seek(offset, whence, size), []);
        return Err(InvalidInput("negative seek position"));
      }
      position := next;
      if whence == SEEK_SET {
        uncertain := false;
      }
      Record(Op.Seek(offset, whence, size), []);
      return Ok(next);
    }

    /** `truncate` cuts the file: without a size from the caller, at the position its
        history left, known or not.  `failure` is what SETATTR answered, and one that
        fails may have taken effect. */
    method Truncate(size: Option<nat>, failure: Option<NfsError>) returns (r: Result<nat>)
      requires Valid()
      modifies writer`server
      ensures r.Ok? <==> writable && failure.None?
      ensures writable && failure.Some? ==> r == Err(failure.value)
      ensures r.Ok? ==> r.value == if size.Some? then size.value else After(start, ops).position
      ensures !writable ==> r == Err(UNWRITABLE) && writer.server == old(writer.server)
      ensures r.Ok? ==> writer.server == Cut(old(writer.server), r.value)
      ensures r.Err? ==> writer.server == old(writer.server)
                         || writer.server == Cut(old(writer.server), if size.Some? then size.value else position)
    {
      if !writable {
        return Err(UNWRITABLE);
      }
      var at := if size.Some? then size.value else position;
      var executed: bool := *;
      if executed || failure.None? {
        writer.server := Cut(writer.server, at);
      }
      if failure.Some? {
        return Err(failure.value);
      }
      return Ok(at);
    }
  }

  /** SETATTR of the size: nothing at or behind it is left. */
  function Cut(s: S.Server, size: nat): S.Server {
    S.Server(map p | p in s.stable && p < size :: s.stable[p],
             map p | p in s.cache && p < size :: s.cache[p], s.verifier)
  }

  /** A cut keeps what is durable in front of it and leaves nothing to see behind it,
      whatever the server does afterwards. */
  lemma CutKeepsFront(s: S.Server, t: S.Server, size: nat, offset: nat, data: seq<S.Byte>)
    requires S.Durable(s, offset, data) && S.Evolves(Cut(s, size), t, 0, [], {})
    ensures offset + |data| <= size ==> S.Durable(t, offset, data)
    ensures forall p: nat, b | p >= size :: !S.Visible(t, p, b)
  {
    hide S.Evolves;
    S.EvolvesOutside(Cut(s, size), t, 0, [], {});
    if offset + |data| <= size {
      forall i | 0 <= i < |data| ensures S.Settled(t, offset + i, data[i]) {
        assert S.Settled(s, offset + i, data[i]);
      }
    }
  }

  lemma SliceFits(file: seq<S.Byte>, at: nat, count: nat)
    requires |file| < U64 && at < U64
    ensures var text := R.Slice(file, at, count); at + |text| < U64 && text == R.Slice(file, at, |text|)
  {
  }

  lemma UncertaintyReachesCursor(r: Result<nat>, io: W.WriteIo, n: nat, at: nat, data: seq<S.Byte>, sent: nat)
    requires data != [] && W.Outcome(r, io, n, at, data, sent)
    ensures r.Err? && io.Current().acked != map[] ==> SurfaceUncertain(r.error)
    ensures forall k | n < k < |io.log| && L.Unclear(io.log[k]) ::
      r.Err? && SurfaceUncertain(r.error)
    ensures r.Err? && L.SomeAccepted(io.log, n) ==>
      (!SurfaceUncertain(r.error) <==> W.Forgotten(io.log, n, io.Current()))
  {
    hide SurfaceUncertain, W.Told, W.Forgotten, L.SomeAccepted;
    var p := io.Current();
    if r.Err? && L.SomeAccepted(io.log, n) { W.UnmarkedExactly(r, io, n, at, data, sent); }
    if p.errors != map[] { W.FailedPassNotCommitted(io, n, |data|); }
    if r.Err? && p.acked != map[] { W.AcknowledgedIsUncertain(r, p, |data|, sent); }
    forall k | n < k < |io.log| && L.Unclear(io.log[k])
      ensures r.Err? && SurfaceUncertain(r.error)
    {
      W.UnclearIsReported(r, io, n, k, at, data, sent);
      var source :| L.Inconclusive(r.error, |p.acked|, "write", source);
      L.InconclusiveIsUncertain(r.error, |p.acked|, "write", source);
    }
  }

  // What the position means over a history.

  /** The bytes a call moved the position over: the text of a read, the data of a
      write, or what a definitely failed write had confirmed. */
  ghost function Covered(c: Cursor, op: Op): nat {
    if c.uncertain || op.Seek? then 0
    else if op.Read? then (if op.text.Ok? then |op.text.value| else 0)
    else if op.result.Ok? then |op.data|
    else
      var outcome := SurfaceOutcome(op.result.error);
      if outcome.Some? && !outcome.value.outcome.Uncertain? && outcome.value.completedBytes.Some?
      then outcome.value.completedBytes.value else 0
  }

  ghost function Total(c: Cursor, ops: seq<Op>): nat
    decreases |ops|
  {
    if ops == [] then 0 else Covered(c, ops[0]) + Total(Step(c, ops[0]).0, ops[1..])
  }

  ghost predicate Relative(op: Op) {
    op.Read? || (op.Write? && !op.append)
  }

  /** The later part of a true history is true from where the earlier part left off. */
  lemma TruthfulSuffix(c: Cursor, before: seq<Op>, ops: seq<Op>, shown: seq<seq<S.Byte>>)
    requires Truthful(c, before + ops, shown)
    ensures |shown| == |before| + |ops| && Truthful(After(c, before), ops, shown[|before|..])
  {
    hide Tells, After;
    var n := |before|;
    forall k | 0 <= k < |ops| ensures Tells(After(After(c, before), ops[..k]), ops[k], shown[n..][k]) {
      AfterConcat(c, before, ops[..k]);
      assert (before + ops)[..n + k] == before + ops[..k] && (before + ops)[n + k] == ops[k];
      assert Tells(After(c, (before + ops)[..n + k]), (before + ops)[n + k], shown[n + k]);
    }
  }

  lemma TruthfulFirst(c: Cursor, ops: seq<Op>, shown: seq<seq<S.Byte>>)
    requires Truthful(c, ops, shown) && ops != []
    ensures |shown| == |ops| && Tells(c, ops[0], shown[0]) && Truthful(Step(c, ops[0]).0, ops[1..], shown[1..])
  {
    hide Tells, Step;
    assert ops[..0] == [] && ops == [ops[0]] + ops[1..];
    assert Tells(After(c, ops[..0]), ops[0], shown[0]);
    TruthfulSuffix(c, [ops[0]], ops[1..], shown);
    assert After(c, [ops[0]]) == Step(c, ops[0]).0 by { AfterPush(c, [], ops[0]); assert [] + [ops[0]] == [ops[0]]; }
  }

  lemma CoveredStep(c: Cursor, op: Op, file: seq<S.Byte>)
    requires Relative(op) && c.position < U64 && Tells(c, op, file)
    ensures Step(c, op).0.position == SaturatingAdd(c.position, Covered(c, op)) < U64
  {
  }

  /** Without seeks and appends the position advances by exactly the bytes the
      transfers covered. */
  lemma {:induction false} PositionIsWhatWasCovered(c: Cursor, ops: seq<Op>, shown: seq<seq<S.Byte>>)
    requires c.position < U64 && Truthful(c, ops, shown) && forall op <- ops :: Relative(op)
    ensures After(c, ops).position == SaturatingAdd(c.position, Total(c, ops))
    decreases |ops|
  {
    hide Step, Covered, Tells, Truthful;
    if ops != [] {
      assert Relative(ops[0]);
      TruthfulFirst(c, ops, shown);
      CoveredStep(c, ops[0], shown[0]);
      PositionIsWhatWasCovered(Step(c, ops[0]).0, ops[1..], shown[1..]);
    }
  }

  /** In any history, after a successful seek the position is what the seek returned
      plus exactly the bytes covered since by relative reads and writes. */
  lemma PositionSinceSeek(c: Cursor, before: seq<Op>, seek: Op, ops: seq<Op>, shown: seq<seq<S.Byte>>)
    requires seek.Seek? && Step(After(c, before), seek).1.Ok? && forall op <- ops :: Relative(op)
    requires Truthful(c, before + [seek] + ops, shown)
    ensures var (d, r) := Step(After(c, before), seek);
      After(c, before + [seek] + ops).position == SaturatingAdd(r.value, Total(d, ops))
  {
    hide Truthful, Total;
    var d := Step(After(c, before), seek).0;
    AfterPush(c, before, seek);
    AfterConcat(c, before + [seek], ops);
    TruthfulSuffix(c, before + [seek], ops, shown);
    PositionIsWhatWasCovered(d, ops, shown[|before| + 1..]);
  }

  /** The texts of a run of reads, one after the other. */
  ghost function Text(ops: seq<Op>): seq<S.Byte>
    requires forall op <- ops :: op.Read? && op.text.Ok?
  {
    if ops == [] then [] else ops[0].text.value + Text(ops[1..])
  }

  lemma {:induction false} ReadsFollow(c: Cursor, ops: seq<Op>, shown: seq<seq<S.Byte>>, file: seq<S.Byte>)
    requires c.position < U64 && !c.uncertain && Truthful(c, ops, shown)
    requires (forall op <- ops :: op.Read? && op.text.Ok?) && (forall k | 0 <= k < |shown| :: shown[k] == file)
    ensures Text(ops) == R.Slice(file, c.position, |Text(ops)|)
    ensures After(c, ops) == Cursor(c.position + |Text(ops)|, false)
    decreases |ops|
  {
    hide Truthful, R.Slice;
    if ops == [] {
      EmptySlice(file, c.position);
    } else {
      TruthfulFirst(c, ops, shown);
      assert ops[0].Read? && shown[0] == file;
      var text := ops[0].text.value;
      ReadsFollow(Step(c, ops[0]).0, ops[1..], shown[1..], file);
      R.SliceJoin(file, c.position, |text|, |Text(ops[1..])|);
    }
  }

  lemma EmptySlice(file: seq<S.Byte>, at: nat)
    ensures R.Slice(file, at, 0) == []
  {
  }

  /** In any true history, successive relative reads of an unchanged file return
      consecutive pieces of it, and the position stands behind the last. */
  lemma ReadsAreConsecutive(c: Cursor, before: seq<Op>, ops: seq<Op>, shown: seq<seq<S.Byte>>, file: seq<S.Byte>)
    requires Truthful(c, before + ops, shown) && After(c, before).position < U64 && !After(c, before).uncertain
    requires (forall op <- ops :: op.Read? && op.text.Ok?) && (forall k | |before| <= k < |shown| :: shown[k] == file)
    ensures var at := After(c, before).position;
      && Text(ops) == R.Slice(file, at, |Text(ops)|)
      && After(c, before + ops) == Cursor(at + |Text(ops)|, false)
  {
    hide Truthful, After, R.Slice;
    TruthfulSuffix(c, before, ops, shown);
    AfterConcat(c, before, ops);
    ReadsFollow(After(c, before), ops, shown[|before|..], file);
  }

  /** An absolute seek to a representable offset. */
  ghost predicate Anchors(op: Op) {
    op.Seek? && op.whence == SEEK_SET && 0 <= op.offset < U64
  }

  /** The write reached the server with an outcome nobody knows. */
  ghost predicate LosesPosition(c: Cursor, op: Op) {
    op.Write? && !c.uncertain && !(op.append && op.size.Err?) && op.result.Err? && SurfaceUncertain(op.result.error)
  }

  /** While the position is uncertain, every relative call is refused and nothing changes. */
  lemma {:induction false} BlockedUntilAnchored(c: Cursor, ops: seq<Op>)
    requires c.uncertain && forall op <- ops :: !Anchors(op)
    ensures After(c, ops) == c && |Results(c, ops)| == |ops|
    ensures forall k | 0 <= k < |ops| :: Results(c, ops)[k].Err?
    ensures forall k | 0 <= k < |ops| && !(ops[k].Seek? && ops[k].whence == SEEK_SET) ::
      Results(c, ops)[k] == Err(REFUSED)
  {
    if ops != [] {
      assert !Anchors(ops[0]);
      assert Step(c, ops[0]).0 == c && Step(c, ops[0]).1.Err?;
      BlockedUntilAnchored(c, ops[1..]);
    }
  }

  ghost predicate Unanchored(ops: seq<Op>) {
    forall op <- ops :: !Anchors(op)
  }

  /** Operation `k` lost the position and no absolute seek has succeeded since. */
  ghost predicate LostAt(c: Cursor, ops: seq<Op>, k: nat) {
    k < |ops| && LosesPosition(After(c, ops[..k]), ops[k]) && Unanchored(ops[k + 1..])
  }

  /** The position is uncertain after a run exactly when a write lost it, or it was
      lost to begin with, and no absolute seek has succeeded since. */
  lemma {:induction false} UncertainExactly(c: Cursor, ops: seq<Op>)
    ensures After(c, ops).uncertain <==> (c.uncertain && Unanchored(ops)) || exists k :: LostAt(c, ops, k)
    decreases |ops|
  {
    hide Step, LostAt, LosesPosition, Anchors, Unanchored;
    if ops == [] {
      NothingLost(c);
    } else {
      var n := |ops| - 1;
      var init := ops[..n];
      AfterLast(c, ops);
      UncertainExactly(c, init);
      UncertainStep(After(c, init), ops[n]);
      UnanchoredPush(init, ops[n]);
      assert ops == init + [ops[n]];
      forall k: nat ensures LostAt(c, ops, k) <==>
        (LostAt(c, init, k) && !Anchors(ops[n])) || (k == n && LosesPosition(After(c, init), ops[n]))
      {
        LostPush(c, init, ops[n], k);
      }
      assert LosesPosition(After(c, init), ops[n]) ==> LostAt(c, ops, n);
    }
  }

  lemma NothingLost(c: Cursor)
    ensures Unanchored([]) && forall k: nat :: !LostAt(c, [], k)
  {
  }

  lemma UnanchoredPush(ops: seq<Op>, op: Op)
    ensures Unanchored(ops + [op]) <==> Unanchored(ops) && !Anchors(op)
  {
    hide Anchors;
    assert (ops + [op])[..|ops|] == ops && (ops + [op])[|ops|] == op;
  }

  lemma LostPush(c: Cursor, init: seq<Op>, last: Op, k: nat)
    ensures LostAt(c, init + [last], k) <==>
      (LostAt(c, init, k) && !Anchors(last)) || (k == |init| && LosesPosition(After(c, init), last))
  {
    hide After, LosesPosition, Anchors, Unanchored;
    var ops := init + [last];
    if k < |init| {
      assert ops[..k] == init[..k] && ops[k + 1..] == init[k + 1..] + [last];
      UnanchoredPush(init[k + 1..], last);
    } else if k == |init| {
      assert ops[..k] == init && ops[k + 1..] == [];
      NothingLost(c);
    }
  }

  lemma UncertainStep(c: Cursor, op: Op)
    ensures Step(c, op).0.uncertain <==> (c.uncertain && !Anchors(op)) || LosesPosition(c, op)
  {
  }

  lemma {:induction false} AfterLast(c: Cursor, ops: seq<Op>)
    requires ops != []
    ensures After(c, ops) == Step(After(c, ops[..|ops| - 1]), ops[|ops| - 1]).0
    decreases |ops|
  {
    if |ops| > 1 {
      AfterLast(Step(c, ops[0]).0, ops[1..]);
      assert ops[1..][..|ops| - 2] == ops[..|ops| - 1][1..];
    } else {
      assert ops[1..] == [] && ops[..0] == [];
    }
  }

  // What `truncate` without a size makes of it.

  lemma LossKeepsPosition(c: Cursor, op: Op)
    requires LosesPosition(c, op)
    ensures Step(c, op).0 == Cursor(c.position, true)
  {
  }

  /** Where a write puts its first byte: at the position, or in append mode at the end
      of the file. */
  ghost function Begins(c: Cursor, op: Op): nat
    requires op.Write? && (op.append ==> op.size.Ok?)
  {
    if op.append then op.size.value else c.position
  }

  /** After any history from a certain position, `truncate` without a size cuts at a
      known position if and only if no write lost it since the last absolute seek.
      Otherwise it cuts, unnoticed, at the position before the lost write, which is
      where that write began unless it was an append from elsewhere. */
  lemma TruncatesWherePositionWasLost(c: Cursor, ops: seq<Op>)
    requires !c.uncertain
    ensures !After(c, ops).uncertain <==> forall k: nat :: !LostAt(c, ops, k)
    ensures forall k: nat | LostAt(c, ops, k) :: After(c, ops).position == After(c, ops[..k]).position
    ensures forall k: nat | LostAt(c, ops, k) ::
      After(c, ops).position == Begins(After(c, ops[..k]), ops[k]) <==>
      (ops[k].append ==> ops[k].size.value == After(c, ops[..k]).position)
  {
    hide Step, Anchors, After, Results;
    UncertainExactly(c, ops);
    forall k: nat | LostAt(c, ops, k) ensures After(c, ops).position == After(c, ops[..k]).position {
      var init, rest := ops[..k], ops[k + 1..];
      LossKeepsPosition(After(c, init), ops[k]);
      AfterPush(c, init, ops[k]);
      AfterConcat(c, init + [ops[k]], rest);
      assert ops == init + [ops[k]] + rest;
      BlockedUntilAnchored(After(c, init + [ops[k]]), rest);
    }
  }

  /** Such a cut happens: a write, appending or not, that was sent and not answered,
      then `truncate`. */
  lemma TruncateIgnoresTheMark(at: nat, append: bool, size: nat, data: seq<S.Byte>, context: Context)
    ensures var e := Classify(ReplaySensitive, context, Rpc("no reply"), false);
      var lost := Op.Write(append, Ok(size), data, Err(e));
      After(Cursor(at, false), [lost]) == Cursor(at, true) && LostAt(Cursor(at, false), [lost], 0)
  {
    var e := Classify(ReplaySensitive, context, Rpc("no reply"), false);
    var lost := Op.Write(append, Ok(size), data, Err(e));
    assert SurfaceUncertain(e);
    assert [lost][..0] == [] && [lost][1..] == [];
  }
}
