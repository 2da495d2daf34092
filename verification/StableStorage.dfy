/** One file on an NFS server as section 3.3.7 (WRITE) and section 3.3.21
    (COMMIT) of RFC 1813 describe it: bytes on stable storage, newer bytes in a
    volatile cache, and a write verifier that names the server instance. */
module StableStorage {
  import opened Errors

  type Byte = b: int | 0 <= b < 256

  datatype Committed = Unstable | DataSync | FileSync

  datatype WriteOutcome = WriteOutcome(count: nat, committed: Committed, verifier: Option<nat>)

  /** Verifiers are numbered by server instance: only their equality is ever used. */
  datatype Server = Server(stable: map<nat, Byte>, cache: map<nat, Byte>, verifier: nat)

  /** What may happen to the file while a batch runs: background write-back of
      any part of the cache, a restart that saves any part of it, and an
      execution of a WRITE: of any piece of the batch's own payload (its first
      delivery, or one whose reply is lost), or somebody else's. */
  datatype Event =
    | Flush(moved: set<nat>)
    | Restart(kept: set<nat>, boot: nat)
    | Execute(at: nat, bytes: seq<Byte>, sync: bool)

  function Only(m: map<nat, Byte>, keys: set<nat>): map<nat, Byte> {
    map p | p in m && p in keys :: m[p]
  }

  predicate Inside(p: nat, at: nat, length: nat) {
    at <= p < at + length
  }

  function Span(at: nat, length: nat): set<nat> {
    set p: nat | at <= p < at + length && Inside(p, at, length)
  }

  function Overlay(at: nat, bytes: seq<Byte>): map<nat, Byte> {
    map p | p in Span(at, |bytes|) :: bytes[p - at]
  }

  function Step(s: Server, e: Event): Server {
    match e
    case Flush(moved) => Server(s.stable + Only(s.cache, moved), s.cache - moved, s.verifier)
    case Restart(kept, boot) => Server(s.stable + Only(s.cache, kept), map[], boot)
    case Execute(at, bytes, sync) =>
      var written := Overlay(at, bytes);
      if sync then Server(s.stable + written, s.cache - written.Keys, s.verifier)
      else Server(s.stable, s.cache + written, s.verifier)
  }

  /** COMMIT flushes from `offset`; a zero count reaches to the end of the file. */
  function CommitEvent(s: Server, offset: nat, count: nat): Event {
    Flush(set p | p in s.cache && offset <= p && (count == 0 || p < offset + count))
  }

  predicate Permitted(p: nat, b: Byte, offset: nat, data: seq<Byte>, loud: set<nat>) {
    p in loud || (offset <= p < offset + |data| && b == data[p - offset])
  }

  /** Others write only where it is `loud`, or what the batch writes there anyway. */
  predicate Legal(s: Server, e: Event, offset: nat, data: seq<Byte>, loud: set<nat>) {
    match e
    case Flush(_) => true
    case Restart(_, boot) => s.verifier < boot
    case Execute(at, bytes, _) =>
      forall i | 0 <= i < |bytes| :: Permitted(at + i, bytes[i], offset, data, loud)
  }

  ghost predicate LegalRun(s: Server, events: seq<Event>, offset: nat, data: seq<Byte>, loud: set<nat>)
    decreases |events|
  {
    events != [] ==>
      Legal(s, events[0], offset, data, loud) && LegalRun(Step(s, events[0]), events[1..], offset, data, loud)
  }

  ghost function Run(s: Server, events: seq<Event>): Server
    decreases |events|
  {
    if events == [] then s else Run(Step(s, events[0]), events[1..])
  }

  ghost predicate Evolves(s: Server, t: Server, offset: nat, data: seq<Byte>, loud: set<nat>) {
    exists events: seq<Event> :: LegalRun(s, events, offset, data, loud) && Run(s, events) == t
  }

  lemma EvolvesByNothing(s: Server, offset: nat, data: seq<Byte>, loud: set<nat>)
    ensures Evolves(s, s, offset, data, loud)
  {
    assert LegalRun(s, [], offset, data, loud) && Run(s, []) == s;
  }

  lemma {:induction false} RunAppend(s: Server, events: seq<Event>, e: Event, offset: nat, data: seq<Byte>,
                                     loud: set<nat>)
    requires LegalRun(s, events, offset, data, loud) && Legal(Run(s, events), e, offset, data, loud)
    ensures LegalRun(s, events + [e], offset, data, loud) && Run(s, events + [e]) == Step(Run(s, events), e)
    decreases |events|
  {
    if events == [] {
      assert ([e])[1..] == [];
    } else {
      RunAppend(Step(s, events[0]), events[1..], e, offset, data, loud);
      assert (events + [e])[1..] == events[1..] + [e];
    }
  }

  lemma EvolvesBy(s: Server, t: Server, e: Event, offset: nat, data: seq<Byte>, loud: set<nat>)
    requires Evolves(s, t, offset, data, loud) && Legal(t, e, offset, data, loud)
    ensures Evolves(s, Step(t, e), offset, data, loud)
  {
    var events :| LegalRun(s, events, offset, data, loud) && Run(s, events) == t;
    RunAppend(s, events, e, offset, data, loud);
  }

  lemma {:induction false} EvolvesThen(s: Server, t: Server, u: Server, offset: nat, data: seq<Byte>, loud: set<nat>)
    requires Evolves(s, t, offset, data, loud) && Evolves(t, u, offset, data, loud)
    ensures Evolves(s, u, offset, data, loud)
  {
    var events :| LegalRun(t, events, offset, data, loud) && Run(t, events) == u;
    EvolvesAlong(s, t, events, offset, data, loud);
  }

  lemma {:induction false} EvolvesAlong(s: Server, t: Server, events: seq<Event>, offset: nat, data: seq<Byte>,
                                        loud: set<nat>)
    requires Evolves(s, t, offset, data, loud) && LegalRun(t, events, offset, data, loud)
    ensures Evolves(s, Run(t, events), offset, data, loud)
    decreases |events|
  {
    if events != [] {
      EvolvesBy(s, t, events[0], offset, data, loud);
      EvolvesAlong(s, Step(t, events[0]), events[1..], offset, data, loud);
    }
  }

  lemma {:induction false} RunVerifier(s: Server, events: seq<Event>, offset: nat, data: seq<Byte>, loud: set<nat>)
    requires LegalRun(s, events, offset, data, loud)
    ensures s.verifier <= Run(s, events).verifier
    decreases |events|
  {
    if events != [] { RunVerifier(Step(s, events[0]), events[1..], offset, data, loud); }
  }

  /** A later instance has a higher number. */
  lemma EvolvesVerifier(s: Server, t: Server, offset: nat, data: seq<Byte>, loud: set<nat>)
    requires Evolves(s, t, offset, data, loud)
    ensures s.verifier <= t.verifier
  {
    var events :| LegalRun(s, events, offset, data, loud) && Run(s, events) == t;
    RunVerifier(s, events, offset, data, loud);
  }

  lemma {:induction false} LegalLouder(s: Server, events: seq<Event>, offset: nat, data: seq<Byte>,
                                       loud: set<nat>, louder: set<nat>)
    requires LegalRun(s, events, offset, data, loud) && loud <= louder
    ensures LegalRun(s, events, offset, data, louder)
    decreases |events|
  {
    if events != [] { LegalLouder(Step(s, events[0]), events[1..], offset, data, loud, louder); }
  }

  lemma EvolvesLouder(s: Server, t: Server, offset: nat, data: seq<Byte>, loud: set<nat>, louder: set<nat>)
    requires Evolves(s, t, offset, data, loud) && loud <= louder
    ensures Evolves(s, t, offset, data, louder)
  {
    var events :| LegalRun(s, events, offset, data, loud) && Run(s, events) == t;
    LegalLouder(s, events, offset, data, loud, louder);
  }

  /** The byte a reader of a running server would see. */
  ghost predicate Visible(s: Server, p: nat, b: Byte) {
    if p in s.cache then s.cache[p] == b else p in s.stable && s.stable[p] == b
  }

  /** The byte survives every restart: stable, and not shadowed by an older dirty byte. */
  ghost predicate Settled(s: Server, p: nat, b: Byte) {
    && p in s.stable && s.stable[p] == b
    && (p in s.cache ==> s.cache[p] == b)
  }

  ghost predicate Durable(s: Server, offset: nat, data: seq<Byte>) {
    forall i | 0 <= i < |data| :: Settled(s, offset + i, data[i])
  }

  /** What an acknowledgement promises about each byte it covers. */
  ghost predicate Promised(s: Server, p: nat, b: Byte, w: WriteOutcome) {
    && (w.committed.FileSync? ==> Settled(s, p, b))
    && (w.verifier.Some? ==> w.verifier.value <= s.verifier)
    && (w.verifier == Some(s.verifier) ==> Visible(s, p, b))
  }

  lemma StepKeepsPromise(s: Server, e: Event, offset: nat, data: seq<Byte>, i: nat, w: WriteOutcome, loud: set<nat>)
    requires i < |data| && offset + i !in loud && Legal(s, e, offset, data, loud) && Promised(s, offset + i, data[i], w)
    ensures Promised(Step(s, e), offset + i, data[i], w)
  {
    match e
    case Execute(at, bytes, _) =>
      var p := offset + i;
      assert at <= p < at + |bytes| ==> bytes[p - at] == data[i];
    case _ =>
  }

  /** Acknowledged bytes keep their promise through any behaviour of the server. */
  lemma {:induction false} RunKeepsPromise(s: Server, events: seq<Event>, offset: nat, data: seq<Byte>,
                                           i: nat, w: WriteOutcome, loud: set<nat>)
    requires i < |data| && offset + i !in loud && LegalRun(s, events, offset, data, loud)
    requires Promised(s, offset + i, data[i], w)
    ensures Promised(Run(s, events), offset + i, data[i], w)
    decreases |events|
  {
    if events != [] {
      StepKeepsPromise(s, events[0], offset, data, i, w, loud);
      RunKeepsPromise(Step(s, events[0]), events[1..], offset, data, i, w, loud);
    }
  }

  lemma EvolvesKeepsPromise(s: Server, t: Server, offset: nat, data: seq<Byte>, i: nat, w: WriteOutcome,
                            loud: set<nat>)
    requires Evolves(s, t, offset, data, loud)
    requires i < |data| && offset + i !in loud && Promised(s, offset + i, data[i], w)
    ensures Promised(t, offset + i, data[i], w)
  {
    var events :| LegalRun(s, events, offset, data, loud) && Run(s, events) == t;
    RunKeepsPromise(s, events, offset, data, i, w, loud);
  }

  /** Nobody else writes here. */
  ghost predicate Calm(offset: nat, length: nat, loud: set<nat>) {
    forall p | p in loud :: p < offset || offset + length <= p
  }

  /** Durable wherever nobody else writes. */
  ghost predicate DurableWhere(s: Server, offset: nat, data: seq<Byte>, loud: set<nat>) {
    forall i | 0 <= i < |data| && offset + i !in loud :: Settled(s, offset + i, data[i])
  }

  /** Durability outlives every later restart and write-back, where nobody else writes. */
  lemma DurableForever(s: Server, t: Server, offset: nat, data: seq<Byte>, loud: set<nat>)
    requires Durable(s, offset, data) && Evolves(s, t, offset, data, loud) && Calm(offset, |data|, loud)
    ensures Durable(t, offset, data)
  {
    forall i | 0 <= i < |data| ensures Settled(t, offset + i, data[i]) {
      EvolvesKeepsPromise(s, t, offset, data, i, WriteOutcome(1, FileSync, None), loud);
    }
  }

  /** Outside the written range, and where nobody else writes, nothing is added or
      changed: a byte there is one the file already held, on stable storage or in
      the cache. */
  ghost predicate OutsideUntouched(s: Server, t: Server, offset: nat, length: nat, loud: set<nat>) {
    forall p: nat | p !in loud && (p < offset || offset + length <= p) ::
      && (p in t.cache ==> p in s.cache && t.cache[p] == s.cache[p])
      && (p in s.stable ==> p in t.stable)
      && (p in t.stable ==>
            || (p in s.stable && t.stable[p] == s.stable[p])
            || (p in s.cache && t.stable[p] == s.cache[p]))
  }

  lemma {:induction false} RunLeavesOutside(s: Server, events: seq<Event>, offset: nat, data: seq<Byte>,
                                            loud: set<nat>)
    requires LegalRun(s, events, offset, data, loud)
    ensures OutsideUntouched(s, Run(s, events), offset, |data|, loud)
    decreases |events|
  {
    if events != [] {
      assert OutsideUntouched(s, Step(s, events[0]), offset, |data|, loud);
      RunLeavesOutside(Step(s, events[0]), events[1..], offset, data, loud);
    }
  }

  lemma EvolvesOutside(s: Server, t: Server, offset: nat, data: seq<Byte>, loud: set<nat>)
    requires Evolves(s, t, offset, data, loud)
    ensures OutsideUntouched(s, t, offset, |data|, loud)
  {
    var events :| LegalRun(s, events, offset, data, loud) && Run(s, events) == t;
    RunLeavesOutside(s, events, offset, data, loud);
  }
}
