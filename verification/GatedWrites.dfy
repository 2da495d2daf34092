/** What `file_gate` (src/fileio.rs) does for the write batches on one file of one
    mount, any number of them, each holding the file's gate while it runs.  The gate
    keeps batches apart.  It does not recall a WRITE that got no answer: the batch that
    sent it ends, or is abandoned, and the server may execute it at any later time. */
module GatedWrites {
  import opened Errors
  import opened StableStorage
  import opened GateRegistry

  /** A WRITE that was sent and not answered. */
  datatype Piece = Piece(at: nat, bytes: seq<Byte>)

  /** How a batch ended for its caller; a dropped future reports nothing. */
  datatype Report = Success | Failed(uncertain: bool) | Abandoned

  /** A running batch: the server as it found it, and the bytes that WRITEs left by
      others have written since, other than with its own payload. */
  datatype Batch = Batch(offset: nat, data: seq<Byte>, since: Server, loud: set<nat>)

  datatype Ended = Ended(offset: nat, data: seq<Byte>, report: Report, left: seq<Piece>)

  /** `pending` names the WRITEs left by ended batches that the server has not executed,
      by batch and by position; `carries` says whether replies carry verifiers. */
  datatype State = State(key: Key, carries: bool, gates: map<Key, Mutex>, seats: map<Client, Seat>, next: Mutex,
                         server: Server, running: map<Client, Batch>, history: seq<Ended>, pending: set<(nat, nat)>)

  /** `begin_batch` in two steps, the batch, and the drop of its guard; on its own the
      server flushes, restarts, and executes a WRITE that was left, or a part of it. */
  datatype Action =
    | Enter(c: Client, key: Key) | Lock(c: Client) | Leave(c: Client)
    | Start(c: Client, offset: nat, data: seq<Byte>) | Work(c: Client, e: Event)
    | Finish(c: Client, report: Report, left: seq<Piece>)
    | Idle(e: Event) | Late(i: nat, j: nat, n: nat, sync: bool)

  ghost predicate PartOf(w: Piece, offset: nat, data: seq<Byte>) {
    offset <= w.at && w.at + |w.bytes| <= offset + |data| && w.bytes == data[w.at - offset..][..|w.bytes|]
  }

  /** A WRITE without an answer makes the reported error uncertain. */
  ghost predicate Leaves(offset: nat, data: seq<Byte>, report: Report, left: seq<Piece>) {
    && (forall w <- left :: PartOf(w, offset, data))
    && (left != [] ==> report == Failed(true) || report.Abandoned?)
  }

  /** A success means what the engine promises: the bytes nobody else wrote are durable. */
  ghost predicate Enabled(s: State, a: Action) {
    match a
    case Enter(c, _) => c !in s.seats
    case Lock(c) => c in s.seats && !exists d <- s.seats :: s.seats[d].mutex == s.seats[c].mutex && s.seats[d].holds
    case Leave(c) => c in s.seats && c !in s.running
    case Start(c, _, _) => c in s.seats && s.seats[c].key == s.key && s.seats[c].holds && c !in s.running
    case Work(c, e) => c in s.running && Legal(s.server, e, s.running[c].offset, s.running[c].data, {})
    case Finish(c, report, left) =>
      && c in s.running && Leaves(s.running[c].offset, s.running[c].data, report, left)
      && (report.Success? && s.carries ==>
            DurableWhere(s.server, s.running[c].offset, s.running[c].data, s.running[c].loud))
    case Idle(e) => !e.Execute? && Legal(s.server, e, 0, [], {})
    case Late(i, j, n, _) =>
      (i, j) in s.pending && i < |s.history| && j < |s.history[i].left| && n <= |s.history[i].left[j].bytes|
  }

  function EnterStep(s: State, c: Client, key: Key): State {
    var (gates, seats, next) := Entered(s.gates, s.seats, s.next, c, key);
    s.(gates := gates, seats := seats, next := next)
  }

  ghost function Names(i: nat, n: nat): set<(nat, nat)> {
    set j: nat | j < n :: (i, j)
  }

  /** The bytes of a foreign WRITE that are not what the batch writes there. */
  ghost function Noise(b: Batch, w: Piece): set<nat> {
    set k: nat | k < |w.bytes| && !Same(b, w.at + k, w.bytes[k]) :: w.at + k
  }

  ghost predicate Same(b: Batch, p: nat, byte: Byte) {
    b.offset <= p < b.offset + |b.data| && b.data[p - b.offset] == byte
  }

  ghost function Heard(running: map<Client, Batch>, w: Piece): map<Client, Batch> {
    map c | c in running :: running[c].(loud := running[c].loud + Noise(running[c], w))
  }

  /** The part of a left WRITE that the server executes. */
  ghost function Front(w: Piece, n: nat): Piece
    requires n <= |w.bytes|
  {
    Piece(w.at, w.bytes[..n])
  }

  ghost function Apply(s: State, a: Action): State
    requires Enabled(s, a)
  {
    match a
    case Enter(c, key) => EnterStep(s, c, key)
    case Lock(c) => s.(seats := s.seats[c := s.seats[c].(holds := true)])
    case Leave(c) => s.(seats := s.seats - {c})
    case Start(c, offset, data) => s.(running := s.running[c := Batch(offset, data, s.server, {})])
    case Work(_, e) => s.(server := Step(s.server, e))
    case Finish(c, report, left) =>
      s.(running := s.running - {c}, pending := s.pending + Names(|s.history|, |left|),
         history := s.history + [Ended(s.running[c].offset, s.running[c].data, report, left)])
    case Idle(e) => s.(server := Step(s.server, e))
    case Late(i, j, n, sync) =>
      var w := Front(s.history[i].left[j], n);
      s.(server := Step(s.server, Execute(w.at, w.bytes, sync)), running := Heard(s.running, w),
         pending := s.pending - {(i, j)})
  }

  ghost predicate Runs(s: State, run: seq<Action>)
    decreases |run|
  {
    run != [] ==> Enabled(s, run[0]) && Runs(Apply(s, run[0]), run[1..])
  }

  ghost function After(s: State, run: seq<Action>): State
    requires Runs(s, run)
    decreases |run|
  {
    if run == [] then s else After(Apply(s, run[0]), run[1..])
  }

  // What the file is known to hold.

  ghost predicate Within(p: nat, offset: nat, length: nat) {
    offset <= p < offset + length
  }

  /** The byte of the last batch over `p`, if that batch succeeded. */
  ghost function Last(history: seq<Ended>, p: nat): Option<Byte> {
    if history == [] then None
    else
      var d := history[|history| - 1];
      if Within(p, d.offset, |d.data|) then (if d.report.Success? then Some(d.data[p - d.offset]) else None)
      else Last(history[..|history| - 1], p)
  }

  ghost predicate Contradicts(w: Piece, p: nat, b: Byte) {
    Within(p, w.at, |w.bytes|) && w.bytes[p - w.at] != b
  }

  /** Some ended batch left an unanswered WRITE over `p` with another value. */
  ghost predicate Threatened(history: seq<Ended>, p: nat, b: Byte) {
    exists i, j | 0 <= i < |history| && 0 <= j < |history[i].left| :: Contradicts(history[i].left[j], p, b)
  }

  lemma ThreatStays(history: seq<Ended>, d: Ended, p: nat, b: Byte)
    requires Threatened(history, p, b)
    ensures Threatened(history + [d], p, b)
  {
    var i, j :| 0 <= i < |history| && 0 <= j < |history[i].left| && Contradicts(history[i].left[j], p, b);
    assert (history + [d])[i] == history[i];
  }

  // The gate.

  /** Whoever runs holds the gate of the file. */
  ghost predicate Gated(s: State) {
    && Sound(s.gates, s.seats, s.next)
    && forall c <- s.running :: c in s.seats && s.seats[c].key == s.key && s.seats[c].holds
  }

  lemma SoleRunner(s: State, c: Client, d: Client)
    requires Gated(s) && c in s.running && d in s.running
    ensures c == d
  {
    hide Sound;
    OneLockPerKey(s.gates, s.seats, s.next, c, d);
  }

  lemma EnterGated(s: State, c: Client, key: Key)
    requires Gated(s) && c !in s.seats
    ensures Gated(EnterStep(s, c, key))
  {
    hide Sound;
    EnteredSound(s.gates, s.seats, s.next, c, key);
  }

  lemma LockSound(gates: map<Key, Mutex>, seats: map<Client, Seat>, next: Mutex, c: Client)
    requires Sound(gates, seats, next) && c in seats
    requires !exists d <- seats :: seats[d].mutex == seats[c].mutex && seats[d].holds
    ensures Sound(gates, seats[c := seats[c].(holds := true)], next)
  {
  }

  lemma LeaveSound(gates: map<Key, Mutex>, seats: map<Client, Seat>, next: Mutex, c: Client)
    requires Sound(gates, seats, next)
    ensures Sound(gates, seats - {c}, next)
  {
  }

  lemma GatedKept(s: State, a: Action)
    requires Gated(s) && Enabled(s, a)
    ensures Gated(Apply(s, a))
  {
    hide Sound, EnterStep, Legal, DurableWhere, Leaves, Step, Noise;
    match a
    case Enter(c, key) => EnterGated(s, c, key);
    case Lock(c) => LockSound(s.gates, s.seats, s.next, c);
    case Leave(c) => LeaveSound(s.gates, s.seats, s.next, c);
    case _ =>
  }

  // The batches.

  /** While a batch runs the server has executed its payload and, where it is loud, WRITEs
      left by others; it is loud in its range only where it was threatened. */
  ghost predicate BatchOk(b: Batch, server: Server, history: seq<Ended>) {
    && Evolves(b.since, server, b.offset, b.data, b.loud)
    && (forall p <- b.loud :: Within(p, b.offset, |b.data|) ==> Threatened(history, p, b.data[p - b.offset]))
  }

  ghost predicate Covered(running: map<Client, Batch>, p: nat) {
    exists c <- running :: Within(p, running[c].offset, |running[c].data|)
  }

  /** Unless it is threatened or being written, the byte of the last batch is settled. */
  ghost predicate ByteOk(s: State, p: nat) {
    var last := Last(s.history, p);
    last.Some? && s.carries && !Threatened(s.history, p, last.value) && !Covered(s.running, p) ==>
      Settled(s.server, p, last.value)
  }

  ghost predicate Orderly(s: State) {
    && (forall c <- s.running :: BatchOk(s.running[c], s.server, s.history))
    && (forall p: nat :: ByteOk(s, p))
  }

  lemma SettledOutside(s: Server, e: Event, offset: nat, data: seq<Byte>, p: nat, b: Byte)
    requires Legal(s, e, offset, data, {}) && !Within(p, offset, |data|) && Settled(s, p, b)
    ensures Settled(Step(s, e), p, b)
  {
  }

  lemma EventOrderly(s: State, c: Client, e: Event)
    requires Gated(s) && Orderly(s) && c in s.running
    requires Legal(s.server, e, s.running[c].offset, s.running[c].data, {})
    ensures Orderly(s.(server := Step(s.server, e)))
  {
    hide Evolves, Legal, Step, Sound, Settled, Last, Threatened;
    var b, s' := s.running[c], s.(server := Step(s.server, e));
    LegalQuieter(s.server, e, b.offset, b.data, b.loud);
    EvolvesBy(b.since, s.server, e, b.offset, b.data, b.loud);
    forall d | d in s.running ensures d == c { SoleRunner(s, c, d); }
    forall p: nat ensures ByteOk(s', p) {
      assert ByteOk(s, p);
      if Last(s.history, p).Some? && !Within(p, b.offset, |b.data|) && Settled(s.server, p, Last(s.history, p).value) {
        SettledOutside(s.server, e, b.offset, b.data, p, Last(s.history, p).value);
      }
    }
  }

  lemma LegalQuieter(s: Server, e: Event, offset: nat, data: seq<Byte>, loud: set<nat>)
    requires Legal(s, e, offset, data, {})
    ensures Legal(s, e, offset, data, loud)
  {
  }

  lemma IdleIsLegal(s: Server, e: Event, offset: nat, data: seq<Byte>)
    requires !e.Execute? && Legal(s, e, 0, [], {})
    ensures Legal(s, e, offset, data, {})
  {
  }

  lemma IdleOrderly(s: State, e: Event)
    requires Orderly(s) && s.running == map[] && !e.Execute? && Legal(s.server, e, 0, [], {})
    ensures Orderly(s.(server := Step(s.server, e)))
  {
    hide Legal, Step, Settled, Last, Threatened;
    var s' := s.(server := Step(s.server, e));
    forall p: nat ensures ByteOk(s', p) {
      assert ByteOk(s, p);
      if Last(s.history, p).Some? && Settled(s.server, p, Last(s.history, p).value) {
        SettledOutside(s.server, e, 0, [], p, Last(s.history, p).value);
      }
    }
  }

  lemma StartOrderly(s: State, c: Client, offset: nat, data: seq<Byte>)
    requires Gated(s) && Orderly(s) && Enabled(s, Start(c, offset, data))
    ensures Orderly(Apply(s, Start(c, offset, data)))
  {
    hide Evolves, Settled, Last, Threatened, Sound;
    var s' := Apply(s, Start(c, offset, data));
    forall d | d in s.running ensures d == c {
      OneLockPerKey(s.gates, s.seats, s.next, c, d);
    }
    EvolvesByNothing(s.server, offset, data, {});
    forall p: nat ensures ByteOk(s', p) {
      assert ByteOk(s, p) && !Covered(s.running, p);
    }
  }

  lemma DurableByte(server: Server, b: Batch, p: nat)
    requires DurableWhere(server, b.offset, b.data, b.loud) && Within(p, b.offset, |b.data|) && p !in b.loud
    ensures Settled(server, p, b.data[p - b.offset])
  {
    hide Settled;
    assert b.offset + (p - b.offset) == p;
  }

  lemma FinishByte(s: State, c: Client, report: Report, left: seq<Piece>, p: nat)
    requires Gated(s) && Orderly(s) && Enabled(s, Finish(c, report, left))
    ensures ByteOk(Apply(s, Finish(c, report, left)), p)
  {
    hide Evolves, Settled, Threatened, Sound, Leaves, Names, DurableWhere;
    var s', b := Apply(s, Finish(c, report, left)), s.running[c];
    var d := Ended(b.offset, b.data, report, left);
    assert s'.history[..|s.history|] == s.history && s'.history[|s.history|] == d;
    assert ByteOk(s, p);
    if Within(p, b.offset, |b.data|) {
      if report.Success? && s.carries && !Threatened(s'.history, p, b.data[p - b.offset]) {
        if p in b.loud { ThreatStays(s.history, d, p, b.data[p - b.offset]); }
        else { DurableByte(s.server, b, p); }
      }
    } else if Last(s.history, p).Some? {
      if Threatened(s.history, p, Last(s.history, p).value) { ThreatStays(s.history, d, p, Last(s.history, p).value); }
      forall e | e in s.running ensures e == c { SoleRunner(s, c, e); }
    }
  }

  lemma FinishOrderly(s: State, c: Client, report: Report, left: seq<Piece>)
    requires Gated(s) && Orderly(s) && Enabled(s, Finish(c, report, left))
    ensures Orderly(Apply(s, Finish(c, report, left)))
  {
    hide Sound, BatchOk, ByteOk, Leaves, DurableWhere;
    forall e | e in s.running ensures e == c { SoleRunner(s, c, e); }
    forall p: nat ensures ByteOk(Apply(s, Finish(c, report, left)), p) { FinishByte(s, c, report, left, p); }
  }

  lemma LateLegal(s: Server, b: Batch, w: Piece, sync: bool)
    ensures Legal(s, Execute(w.at, w.bytes, sync), b.offset, b.data, b.loud + Noise(b, w))
  {
    forall k | 0 <= k < |w.bytes|
      ensures Permitted(w.at + k, w.bytes[k], b.offset, b.data, b.loud + Noise(b, w))
    {
      assert Same(b, w.at + k, w.bytes[k]) || w.at + k in Noise(b, w);
    }
  }

  /** A WRITE that was left is heard by a running batch only where it threatens it. */
  lemma LateBatchOk(b: Batch, server: Server, history: seq<Ended>, i: nat, j: nat, n: nat, sync: bool)
    requires BatchOk(b, server, history)
    requires i < |history| && j < |history[i].left| && n <= |history[i].left[j].bytes|
    ensures var w := Front(history[i].left[j], n);
      BatchOk(b.(loud := b.loud + Noise(b, w)), Step(server, Execute(w.at, w.bytes, sync)), history)
  {
    hide Evolves, Step, Legal;
    var w := Front(history[i].left[j], n);
    var louder := b.loud + Noise(b, w);
    EvolvesLouder(b.since, server, b.offset, b.data, b.loud, louder);
    LateLegal(server, b, w, sync);
    EvolvesBy(b.since, server, Execute(w.at, w.bytes, sync), b.offset, b.data, louder);
    forall p | p in Noise(b, w) && Within(p, b.offset, |b.data|)
      ensures Threatened(history, p, b.data[p - b.offset])
    {
      assert Contradicts(history[i].left[j], p, b.data[p - b.offset]);
    }
  }

  lemma SettledSame(s: Server, w: Piece, sync: bool, p: nat, b: Byte)
    requires Settled(s, p, b) && !Contradicts(w, p, b)
    ensures Settled(Step(s, Execute(w.at, w.bytes, sync)), p, b)
  {
  }

  lemma LateByte(s: State, i: nat, j: nat, n: nat, sync: bool, p: nat)
    requires Orderly(s) && Enabled(s, Late(i, j, n, sync))
    ensures ByteOk(Apply(s, Late(i, j, n, sync)), p)
  {
    hide Settled, Step, Last, Noise;
    var whole, s' := s.history[i].left[j], Apply(s, Late(i, j, n, sync));
    var w := Front(whole, n);
    assert ByteOk(s, p);
    var last := Last(s.history, p);
    if c :| c in s.running && Within(p, s.running[c].offset, |s.running[c].data|) {
      assert c in s'.running && Within(p, s'.running[c].offset, |s'.running[c].data|);
    } else if last.Some? && s.carries && !Threatened(s.history, p, last.value) {
      assert !Contradicts(whole, p, last.value);
      SettledSame(s.server, w, sync, p, last.value);
    }
  }

  lemma LateOrderly(s: State, i: nat, j: nat, n: nat, sync: bool)
    requires Orderly(s) && Enabled(s, Late(i, j, n, sync))
    ensures Orderly(Apply(s, Late(i, j, n, sync)))
  {
    hide BatchOk, ByteOk, Step, Noise;
    var s' := Apply(s, Late(i, j, n, sync));
    forall c | c in s'.running ensures BatchOk(s'.running[c], s'.server, s'.history) {
      LateBatchOk(s.running[c], s.server, s.history, i, j, n, sync);
    }
    forall p: nat ensures ByteOk(s', p) { LateByte(s, i, j, n, sync, p); }
  }

  lemma SeatsOrderly(s: State, s': State)
    requires Orderly(s) && s' == s.(gates := s'.gates, seats := s'.seats, next := s'.next)
    ensures Orderly(s')
  {
    hide Settled, Last, Threatened, BatchOk;
    forall p: nat ensures ByteOk(s', p) { assert ByteOk(s, p); }
  }

  lemma OrderlyKept(s: State, a: Action)
    requires Gated(s) && Orderly(s) && Enabled(s, a)
    ensures Orderly(Apply(s, a))
  {
    hide Gated, Orderly, Legal, Step, DurableWhere, Leaves, Entered, Names, Heard;
    match a
    case Start(c, offset, data) => StartOrderly(s, c, offset, data);
    case Work(c, e) => EventOrderly(s, c, e);
    case Finish(c, report, left) => FinishOrderly(s, c, report, left);
    case Late(i, j, n, sync) => LateOrderly(s, i, j, n, sync);
    case Idle(e) =>
      if c :| c in s.running {
        IdleIsLegal(s.server, e, s.running[c].offset, s.running[c].data);
        EventOrderly(s, c, e);
      } else {
        assert s.running == map[];
        IdleOrderly(s, e);
      }
    case _ => SeatsOrderly(s, Apply(s, a));
  }

  /** Every WRITE on record as left is part of its batch's payload, and its batch did
      not report a certain result. */
  ghost predicate Recorded(history: seq<Ended>) {
    forall i | 0 <= i < |history| :: Leaves(history[i].offset, history[i].data, history[i].report, history[i].left)
  }

  lemma RecordedKept(s: State, a: Action)
    requires Recorded(s.history) && Enabled(s, a)
    ensures Recorded(Apply(s, a).history)
  {
    hide Leaves, Legal, DurableWhere, Step, Heard, Names, Entered;
  }

  // Every run.

  ghost predicate Initial(s: State) {
    s.gates == map[] && s.seats == NOBODY && s.running == map[] && s.history == [] && s.pending == {}
  }

  const NOBODY: map<Client, Seat> := map[]

  ghost predicate Inv(s: State) {
    Gated(s) && Orderly(s) && Recorded(s.history)
  }

  lemma {:induction false} InvAfter(s: State, run: seq<Action>)
    requires Inv(s) && Runs(s, run)
    ensures Inv(After(s, run)) && After(s, run).carries == s.carries
    decreases |run|
  {
    hide Gated, Orderly, Recorded, Enabled, Entered, Step, Names, Heard;
    if run != [] {
      GatedKept(s, run[0]);
      OrderlyKept(s, run[0]);
      RecordedKept(s, run[0]);
      InvAfter(Apply(s, run[0]), run[1..]);
    }
  }

  lemma InitialInv(s: State)
    requires Initial(s)
    ensures Inv(s)
  {
  }

  /** Reachable in a file whose replies carry verifiers. */
  ghost predicate Reached(t: State) {
    exists s, run :: Initial(s) && s.carries && Runs(s, run) && After(s, run) == t
  }

  lemma ReachedInv(t: State)
    requires Reached(t)
    ensures Inv(t) && t.carries
  {
    hide Inv;
    var s, run :| Initial(s) && s.carries && Runs(s, run) && After(s, run) == t;
    InitialInv(s);
    InvAfter(s, run);
  }

  /** Over every interleaving at most one batch runs at a time, and since it started the
      server has executed nothing in its range but its payload, except where an ended
      batch left an unanswered WRITE with another value. */
  lemma SoleWriter(s: State, run: seq<Action>)
    requires Initial(s) && Runs(s, run)
    ensures var t := After(s, run);
      && (forall c <- t.running, d <- t.running :: c == d)
      && (forall c <- t.running :: var b := t.running[c];
            && Evolves(b.since, t.server, b.offset, b.data, b.loud)
            && BatchCalm(b, t.history))
  {
    hide Sound, Evolves, Threatened, Recorded, ByteOk;
    InitialInv(s);
    InvAfter(s, run);
    var t := After(s, run);
    forall c, d | c in t.running && d in t.running ensures c == d { SoleRunner(t, c, d); }
    forall c | c in t.running ensures BatchCalm(t.running[c], t.history) {
      CalmUnlessThreatened(t.running[c], t.server, t.history);
    }
  }

  /** Unless somebody threatens a byte of its range, nobody else has written there. */
  ghost predicate BatchCalm(b: Batch, history: seq<Ended>) {
    (forall p: nat | Within(p, b.offset, |b.data|) :: !Threatened(history, p, b.data[p - b.offset])) ==>
      Calm(b.offset, |b.data|, b.loud)
  }

  lemma CalmUnlessThreatened(b: Batch, server: Server, history: seq<Ended>)
    requires BatchOk(b, server, history)
    ensures BatchCalm(b, history)
  {
    hide Evolves, Threatened;
  }

  /** Whatever the server does: with no batch running, a byte whose last batch succeeded
      is that batch's byte on stable storage, unless it is threatened. */
  lemma LaterBatchStays(t: State, p: nat)
    requires Reached(t) && t.running == map[] && Last(t.history, p).Some?
    requires !Threatened(t.history, p, Last(t.history, p).value)
    ensures Settled(t.server, p, Last(t.history, p).value)
  {
    hide Gated, Settled, Last, Threatened, Recorded, Reached;
    ReachedInv(t);
    assert ByteOk(t, p);
  }

  /** The caller's test: if no batch over the byte reported an uncertain error or was
      abandoned, the byte is not threatened. */
  lemma CertainReportsSuffice(t: State, p: nat, b: Byte)
    requires Reached(t)
    requires forall i | 0 <= i < |t.history| && Within(p, t.history[i].offset, |t.history[i].data|) ::
      t.history[i].report != Failed(true) && !t.history[i].report.Abandoned?
    ensures !Threatened(t.history, p, b)
  {
    hide Gated, Orderly, Reached;
    ReachedInv(t);
    if i, j :| 0 <= i < |t.history| && 0 <= j < |t.history[i].left| && Contradicts(t.history[i].left[j], p, b) {
      assert Leaves(t.history[i].offset, t.history[i].data, t.history[i].report, t.history[i].left);
      assert PartOf(t.history[i].left[j], t.history[i].offset, t.history[i].data);
    }
  }

  // Where it is threatened, some run with the same history loses it.

  lemma ReachedStep(t: State, a: Action)
    requires Reached(t) && Enabled(t, a)
    ensures Reached(Apply(t, a))
  {
    var s, run :| Initial(s) && s.carries && Runs(s, run) && After(s, run) == t;
    RunsOn(s, run, a);
  }

  lemma {:induction false} RunsOn(s: State, run: seq<Action>, a: Action)
    requires Runs(s, run) && Enabled(After(s, run), a)
    ensures Runs(s, run + [a]) && After(s, run + [a]) == Apply(After(s, run), a)
    decreases |run|
  {
    hide Enabled, Apply;
    if run == [] {
      assert [] + [a] == [a] && [a][1..] == [];
    } else {
      RunsOn(Apply(s, run[0]), run[1..], a);
      assert (run + [a])[1..] == run[1..] + [a];
    }
  }

  ghost predicate SameBatch(a: Batch, b: Batch) {
    a.offset == b.offset && a.data == b.data
  }

  /** To the clients the two states look the same; in the second the server has not
      executed any WRITE that was left. */
  ghost predicate Alike(s: State, t: State) {
    && t.key == s.key && t.carries == s.carries && t.gates == s.gates && t.seats == s.seats && t.next == s.next
    && t.history == s.history && t.running.Keys == s.running.Keys
    && (forall c <- s.running :: SameBatch(s.running[c], t.running[c]))
    && (forall i: nat, j: nat | i < |t.history| && j < |t.history[i].left| :: (i, j) in t.pending)
  }

  /** The batch writes its whole payload in one FILE_SYNC WRITE. */
  lemma DeliverAll(t: State, c: Client) returns (u: State)
    requires Reached(t) && c in t.running
    ensures Reached(u) && u == t.(server := u.server)
    ensures forall loud :: DurableWhere(u.server, t.running[c].offset, t.running[c].data, loud)
  {
    hide Reached, Legal, Step, Settled;
    var b := t.running[c];
    var e := Execute(b.offset, b.data, true);
    WholePayload(t.server, b.offset, b.data);
    ReachedStep(t, Work(c, e));
    u := Apply(t, Work(c, e));
  }

  lemma WholePayload(s: Server, offset: nat, data: seq<Byte>)
    ensures Legal(s, Execute(offset, data, true), offset, data, {})
    ensures forall i | 0 <= i < |data| :: Settled(Step(s, Execute(offset, data, true)), offset + i, data[i])
  {
    forall i | 0 <= i < |data| ensures Settled(Step(s, Execute(offset, data, true)), offset + i, data[i]) {
      SyncWrites(s, offset, data, i);
    }
  }

  lemma SyncWrites(s: Server, offset: nat, data: seq<Byte>, i: nat)
    requires i < |data|
    ensures Settled(Step(s, Execute(offset, data, true)), offset + i, data[i])
  {
    var overlay := Overlay(offset, data);
    assert offset + i in Span(offset, |data|) && overlay[offset + i] == data[i];
  }

  lemma MirrorFinish(s: State, t: State, c: Client, report: Report, left: seq<Piece>) returns (u: State)
    requires Alike(s, t) && Reached(t) && Enabled(s, Finish(c, report, left))
    ensures Reached(u) && Alike(Apply(s, Finish(c, report, left)), u)
  {
    hide Reached, Leaves, DurableWhere;
    assert SameBatch(s.running[c], t.running[c]);
    var v := DeliverAll(t, c);
    ReachedStep(v, Finish(c, report, left));
    u := Apply(v, Finish(c, report, left));
    var n := |s.history|;
    forall i: nat, j: nat | i < |u.history| && j < |u.history[i].left| ensures (i, j) in u.pending {
      if i < n { assert u.history[i] == t.history[i] && (i, j) in t.pending; }
    }
  }

  /** Each step of the clients can be made in the other state as well; steps of the
      server are left out. */
  lemma MirrorStep(s: State, t: State, a: Action) returns (u: State)
    requires Alike(s, t) && Reached(t) && Enabled(s, a)
    ensures Reached(u) && Alike(Apply(s, a), u)
  {
    hide Reached, Leaves, DurableWhere, Legal, Step, Noise, Names, Entered;
    match a
    case Work(_, _) => u := t;
    case Idle(_) => u := t;
    case Late(_, _, _, _) => u := t;
    case Finish(c, report, left) => u := MirrorFinish(s, t, c, report, left);
    case _ =>
      assert Enabled(t, a);
      ReachedStep(t, a);
      u := Apply(t, a);
  }

  lemma {:induction false} Mirror(s: State, t: State, run: seq<Action>) returns (u: State)
    requires Alike(s, t) && Reached(t) && Runs(s, run)
    ensures Reached(u) && Alike(After(s, run), u)
    decreases |run|
  {
    hide Reached, Alike, Enabled, Apply;
    u := t;
    if run != [] {
      u := MirrorStep(s, t, run[0]);
      u := Mirror(Apply(s, run[0]), u, run[1..]);
    }
  }

  /** The same history with every WRITE that was left still to come. */
  lemma Untouched(t: State) returns (u: State)
    requires Reached(t)
    ensures Reached(u) && Alike(t, u)
  {
    var s, run :| Initial(s) && s.carries && Runs(s, run) && After(s, run) == t;
    assert Runs(s, []) && After(s, []) == s;
    assert Reached(s) && Alike(s, s);
    u := Mirror(s, s, run);
  }

  lemma LateLoses(s: Server, w: Piece, p: nat, b: Byte)
    requires Contradicts(w, p, b)
    ensures !Settled(Step(s, Execute(w.at, w.bytes, true)), p, b)
  {
    assert p in Overlay(w.at, w.bytes) && Overlay(w.at, w.bytes)[p] == w.bytes[p - w.at];
  }

  /** A threatened byte is lost in some run with this very history. */
  lemma ThreatComesTrue(t: State, p: nat, b: Byte) returns (u: State)
    requires Reached(t) && t.running == map[] && Threatened(t.history, p, b)
    ensures Reached(u) && u.running == map[] && u.history == t.history && !Settled(u.server, p, b)
  {
    hide Reached, Settled, Step;
    var i, j :| 0 <= i < |t.history| && 0 <= j < |t.history[i].left| && Contradicts(t.history[i].left[j], p, b);
    var w := t.history[i].left[j];
    var v := Untouched(t);
    assert v.running == map[];
    var a := Late(i, j, |w.bytes|, true);
    ReachedStep(v, a);
    u := Apply(v, a);
    assert w.bytes[..|w.bytes|] == w.bytes;
    LateLoses(v.server, w, p, b);
  }

  /** For every history of batches on one file, replies carrying verifiers, and every
      byte whose last batch succeeded: all runs with that history leave that batch's
      byte on stable storage, if and only if no batch left an unanswered WRITE over it
      with another value. */
  lemma KeptExactly(t: State, p: nat)
    requires Reached(t) && t.running == map[] && Last(t.history, p).Some?
    ensures var b := Last(t.history, p).value;
      (forall u | Reached(u) && u.running == map[] && u.history == t.history :: Settled(u.server, p, b)) <==>
      !Threatened(t.history, p, b)
  {
    hide Reached, Settled, Last, Threatened;
    var b := Last(t.history, p).value;
    if Threatened(t.history, p, b) {
      var u := ThreatComesTrue(t, p, b);
    } else {
      forall u | Reached(u) && u.running == map[] && u.history == t.history ensures Settled(u.server, p, b) {
        LaterBatchStays(u, p);
      }
    }
  }

  /** A client takes the gate of an idle file, runs one batch and goes. */
  lemma OneBatch(t: State, c: Client, offset: nat, data: seq<Byte>, report: Report, left: seq<Piece>)
    returns (u: State)
    requires Reached(t) && t.seats == NOBODY && t.running == map[] && Leaves(offset, data, report, left)
    ensures Reached(u) && u.seats == NOBODY && u.running == map[]
    ensures u.history == t.history + [Ended(offset, data, report, left)]
  {
    hide Reached, Leaves, DurableWhere, Purged;
    ReachedStep(t, Enter(c, t.key));
    var t1 := Apply(t, Enter(c, t.key));
    ReachedStep(t1, Lock(c));
    var t2 := Apply(t1, Lock(c));
    ReachedStep(t2, Start(c, offset, data));
    var t3 := Apply(t2, Start(c, offset, data));
    var t4 := DeliverAll(t3, c);
    ReachedStep(t4, Finish(c, report, left));
    var t5 := Apply(t4, Finish(c, report, left));
    ReachedStep(t5, Leave(c));
    u := Apply(t5, Leave(c));
  }

  /** Such a history: a batch ends uncertain with its WRITE unanswered, a later batch
      over the same byte succeeds, and then the server executes the first WRITE. */
  lemma LateWriteOverturns(offset: nat, x: Byte, y: Byte) returns (u: State)
    requires x != y
    ensures Reached(u) && u.running == map[]
    ensures u.history == [Ended(offset, [x], Failed(true), [Piece(offset, [x])]), Ended(offset, [y], Success, [])]
    ensures Last(u.history, offset) == Some(y) && !Settled(u.server, offset, y)
  {
    hide Reached, Settled, Last, Leaves, Threatened;
    var s := State(Key(0, [], 0), true, map[], NOBODY, 0, Server(map[], map[], 0), map[], [], {});
    StartReached(s);
    OverturningReports(offset, x, y);
    var first := OneBatch(s, 0, offset, [x], Failed(true), [Piece(offset, [x])]);
    var second := OneBatch(first, 1, offset, [y], Success, []);
    OverturningThreat(second.history, offset, x, y);
    u := ThreatComesTrue(second, offset, y);
  }

  lemma OverturningReports(offset: nat, x: Byte, y: Byte)
    ensures Leaves(offset, [x], Failed(true), [Piece(offset, [x])]) && Leaves(offset, [y], Success, [])
  {
  }

  lemma OverturningThreat(history: seq<Ended>, offset: nat, x: Byte, y: Byte)
    requires x != y
    requires history == [Ended(offset, [x], Failed(true), [Piece(offset, [x])]), Ended(offset, [y], Success, [])]
    ensures Last(history, offset) == Some(y) && Threatened(history, offset, y)
  {
    assert Contradicts(history[0].left[0], offset, y);
  }

  lemma StartReached(s: State)
    requires Initial(s) && s.carries
    ensures Reached(s)
  {
    assert Runs(s, []) && After(s, []) == s;
  }
}
