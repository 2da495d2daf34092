/** The directory cursor of src/mount.rs and the two listings built on it: the
    stream that keeps one cursor (src/nfs3/mod.rs) and the page call that resumes
    from a position its caller holds (src/nfs3/readdirplus.rs). */
module Directory {
  import opened Errors

  const TWO_TO_THE_64: nat := 0x1_0000_0000_0000_0000
  type U64 = n: nat | n < TWO_TO_THE_64

  datatype Position = Position(cookie: U64, verifier: U64)
  datatype Entry = Entry(cookie: U64, name: string)
  datatype Reply = Reply(entries: seq<Entry>, verifier: U64, eof: bool)

  function Last(entries: seq<Entry>, requested: U64): U64 {
    if entries == [] then requested else entries[|entries| - 1].cookie
  }

  // What one page does to a cursor.

  datatype Cursor = Cursor(position: Position, seen: set<U64>)

  const START: Cursor := Cursor(Position(0, 0), {0})

  function Resumed(position: Position): Cursor {
    Cursor(position, {0, position.cookie})
  }

  predicate Admissible(seen: set<U64>, cookie: U64, entries: nat, eof: bool) {
    (eof || entries > 0) && (entries > 0 ==> cookie !in seen)
  }

  function Moved(c: Cursor, cookie: U64, verifier: U64, entries: nat): Cursor {
    Cursor(Position(cookie, verifier), if entries > 0 then c.seen + {cookie} else c.seen)
  }

  const NO_PROGRESS := Xdr("READDIR page made no progress or repeated a cookie")

  class DirectoryCursor {
    var cookie: U64
    var verifier: U64
    var seen: set<U64>

    function View(): Cursor
      reads this
    {
      Cursor(Position(cookie, verifier), seen)
    }

    constructor Default()
      ensures View() == START
    {
      cookie, verifier, seen := 0, 0, {0};
    }

    constructor Resume(position: Position)
      ensures View() == Resumed(position)
    {
      cookie, verifier, seen := position.cookie, position.verifier, {0, position.cookie};
    }

    /** A page is refused exactly when it is empty without EOF, or not empty and
        its last cookie was seen; a refusal leaves the cursor as it was. */
    method Advance(cookie: U64, verifier: U64, entries: nat, eof: bool) returns (r: Result<bool>)
      modifies this
      ensures r.Ok? <==> Admissible(old(seen), cookie, entries, eof)
      ensures r.Ok? ==> r.value == !eof && View() == Moved(old(View()), cookie, verifier, entries)
      ensures r.Err? ==> r.error == NO_PROGRESS && View() == old(View())
    {
      if !eof && entries == 0 {
        return Err(NO_PROGRESS);
      }
      if entries > 0 {
        if cookie in seen {
          return Err(NO_PROGRESS);
        }
        seen := seen + {cookie};
      }
      this.cookie := cookie;
      this.verifier := verifier;
      return Ok(!eof);
    }

    /** The position after a page: the requested one if the page is empty, so a
        cookie always travels with the verifier of the reply that gave it. */
    method Page(lastCookie: U64, verifier: U64, entries: nat, eof: bool) returns (r: Result<Position>)
      modifies this
      ensures r.Ok? <==> Admissible(old(seen), lastCookie, entries, eof)
      ensures r.Err? ==> r.error == NO_PROGRESS
      ensures r.Ok? ==> r.value == if entries == 0 then old(View()).position else Position(lastCookie, verifier)
    {
      var requested := Position(this.cookie, this.verifier);
      var more := Advance(lastCookie, verifier, entries, eof);
      if more.Err? {
        return Err(more.error);
      }
      if entries == 0 {
        return Ok(requested);
      }
      return Ok(Position(this.cookie, this.verifier));
    }
  }

  // Whole runs of pages on one cursor.

  ghost predicate Accepts(c: Cursor, reply: Reply) {
    Admissible(c.seen, Last(reply.entries, c.position.cookie), |reply.entries|, reply.eof)
  }

  ghost function Next(c: Cursor, reply: Reply): Cursor {
    Moved(c, Last(reply.entries, c.position.cookie), reply.verifier, |reply.entries|)
  }

  ghost predicate AcceptsAll(c: Cursor, replies: seq<Reply>)
    decreases |replies|
  {
    replies != [] ==> Accepts(c, replies[0]) && AcceptsAll(Next(c, replies[0]), replies[1..])
  }

  ghost function Fed(c: Cursor, replies: seq<Reply>): Cursor
    decreases |replies|
  {
    if replies == [] then c else Fed(Next(c, replies[0]), replies[1..])
  }

  ghost function End(reply: Reply): U64 {
    Last(reply.entries, 0)
  }

  ghost predicate Ends(reply: Reply, cookie: U64) {
    reply.entries != [] && End(reply) == cookie
  }

  ghost predicate NoRepeat(replies: seq<Reply>) {
    forall i, j | 0 <= i < j < |replies| && replies[i].entries != [] && replies[j].entries != [] ::
      End(replies[i]) != End(replies[j])
  }

  ghost predicate Fresh(seen: set<U64>, replies: seq<Reply>) {
    forall i | 0 <= i < |replies| && replies[i].entries != [] :: End(replies[i]) !in seen
  }

  ghost predicate Progress(replies: seq<Reply>) {
    forall i | 0 <= i < |replies| :: replies[i].entries != [] || replies[i].eof
  }

  /** One cursor accepts a run of pages if and only if no page is empty without
      EOF and the last cookies of the others are new and pairwise distinct. */
  lemma {:induction false} AcceptedExactly(c: Cursor, replies: seq<Reply>)
    ensures AcceptsAll(c, replies) <==> Progress(replies) && Fresh(c.seen, replies) && NoRepeat(replies)
    decreases |replies|
  {
    if replies != [] {
      var first, rest := replies[0], replies[1..];
      AcceptedExactly(Next(c, first), rest);
      SplitRun(c, first, rest);
      assert replies == [first] + rest;
    }
  }

  lemma SplitRun(c: Cursor, first: Reply, rest: seq<Reply>)
    ensures var all := [first] + rest;
      Progress(all) && Fresh(c.seen, all) && NoRepeat(all) <==>
      Accepts(c, first) && Progress(rest) && Fresh(Next(c, first).seen, rest) && NoRepeat(rest)
  {
    hide End;
    var all := [first] + rest;
    EndIsLast(first, c.position.cookie);
    assert Accepts(c, first) <==>
      (first.entries != [] || first.eof) && (first.entries != [] ==> End(first) !in c.seen);
    assert first.entries != [] ==> Next(c, first).seen == c.seen + {End(first)};
    assert first.entries == [] ==> Next(c, first).seen == c.seen;
    Heads(first, rest);
    assert Progress(all) <==> (first.entries != [] || first.eof) && Progress(rest);
  }

  lemma EndIsLast(reply: Reply, requested: U64)
    ensures reply.entries != [] ==> End(reply) == Last(reply.entries, requested)
  {
  }

  lemma Heads(first: Reply, rest: seq<Reply>)
    ensures var all := [first] + rest;
      && (Progress(all) <==> (first.entries != [] || first.eof) && Progress(rest))
      && (NoRepeat(all) <==> NoRepeat(rest) && (first.entries != [] ==> Fresh({End(first)}, rest)))
    ensures forall seen :: Fresh(seen, [first] + rest) <==>
      (first.entries != [] ==> End(first) !in seen) && Fresh(seen, rest)
  {
    hide Progress, NoRepeat, Fresh;
    HeadProgress(first, rest);
    HeadNoRepeat(first, rest);
    forall seen ensures Fresh(seen, [first] + rest) <==>
      (first.entries != [] ==> End(first) !in seen) && Fresh(seen, rest)
    {
      HeadFresh(seen, first, rest);
    }
  }

  lemma HeadProgress(first: Reply, rest: seq<Reply>)
    ensures Progress([first] + rest) <==> (first.entries != [] || first.eof) && Progress(rest)
  {
    var all := [first] + rest;
    assert all[0] == first && forall i | 0 <= i < |rest| :: rest[i] == all[i + 1];
  }

  lemma HeadFresh(seen: set<U64>, first: Reply, rest: seq<Reply>)
    ensures Fresh(seen, [first] + rest) <==> (first.entries != [] ==> End(first) !in seen) && Fresh(seen, rest)
  {
    hide End;
    var all := [first] + rest;
    assert all[0] == first && forall i | 0 <= i < |rest| :: rest[i] == all[i + 1];
  }

  lemma HeadNoRepeat(first: Reply, rest: seq<Reply>)
    ensures NoRepeat([first] + rest) <==> NoRepeat(rest) && (first.entries != [] ==> Fresh({End(first)}, rest))
  {
    hide End;
    var all := [first] + rest;
    assert all[0] == first;
    forall i | 0 <= i < |rest| ensures rest[i] == all[i + 1] { }
    if NoRepeat(all) {
      forall i, j | 0 <= i < j < |rest| && rest[i].entries != [] && rest[j].entries != []
        ensures End(rest[i]) != End(rest[j])
      {
        assert all[i + 1] == rest[i] && all[j + 1] == rest[j];
      }
    }
  }

  /** A run fed to a fresh cursor: the seen set is zero and the accepted last
      cookies, and an unfinished run stands on a seen cookie. */
  lemma {:induction false} SeenAfter(c: Cursor, replies: seq<Reply>)
    requires c.position.cookie in c.seen && AcceptsAll(c, replies)
    ensures forall x :: x in Fed(c, replies).seen <==>
      x in c.seen || exists i | 0 <= i < |replies| :: Ends(replies[i], x)
    ensures Fed(c, replies).position.cookie in Fed(c, replies).seen
    decreases |replies|
  {
    if replies != [] {
      var first, rest := replies[0], replies[1..];
      SeenAfter(Next(c, first), rest);
      forall x ensures (exists i | 0 <= i < |replies| :: Ends(replies[i], x)) <==>
        Ends(first, x) || exists i | 0 <= i < |rest| :: Ends(rest[i], x)
      {
        if i :| 0 <= i < |rest| && Ends(rest[i], x) { assert replies[i + 1] == rest[i]; }
        if i :| 0 <= i < |replies| && Ends(replies[i], x) { assert i > 0 ==> rest[i - 1] == replies[i]; }
      }
    }
  }

  lemma {:induction false} FedPush(c: Cursor, replies: seq<Reply>, reply: Reply)
    ensures AcceptsAll(c, replies + [reply]) <==> AcceptsAll(c, replies) && Accepts(Fed(c, replies), reply)
    ensures Fed(c, replies + [reply]) == Next(Fed(c, replies), reply)
    decreases |replies|
  {
    if replies == [] {
      assert replies + [reply] == [reply] && [reply][1..] == [];
    } else {
      assert (replies + [reply])[1..] == replies[1..] + [reply];
      FedPush(Next(c, replies[0]), replies[1..], reply);
    }
  }

  /** The stream and the page call compared on the same page: both refuse an empty
      page without EOF; on the others the page call accepts whatever the stream
      accepts, and what it accepts beyond that is exactly a page that returns to an
      earlier boundary other than the start and the present one. */
  lemma PageAcceptsMore(replies: seq<Reply>, reply: Reply)
    requires AcceptsAll(START, replies)
    ensures var c := Fed(START, replies);
      && (Accepts(c, reply) ==> Accepts(Resumed(c.position), reply))
      && (Accepts(c, reply) && reply.entries != [] ==>
            Next(c, reply).position == Next(Resumed(c.position), reply).position)
      && (Accepts(Resumed(c.position), reply) && !Accepts(c, reply) <==>
            reply.entries != []
            && End(reply) != c.position.cookie && End(reply) != 0
            && (exists i | 0 <= i < |replies| :: Ends(replies[i], End(reply))))
  {
    SeenAfter(START, replies);
  }

  /** A caller that resumes takes these pages one after the other. */
  ghost predicate FollowsAll(position: Position, replies: seq<Reply>)
    decreases |replies|
  {
    replies != [] ==>
      && Accepts(Resumed(position), replies[0])
      && FollowsAll(Next(Resumed(position), replies[0]).position, replies[1..])
  }

  /** `n` pages that send each other back and forth, the first ending at `a`. */
  ghost function Cycle(a: U64, b: U64, n: nat): seq<Reply>
    decreases n
  {
    if n == 0 then [] else [Reply([Entry(a, "entry")], 1, false)] + Cycle(b, a, n - 1)
  }

  /** The converse fails: two pages that send each other back are accepted for ever by
      a caller that resumes, and the stream refuses the third. */
  lemma {:induction false} PagesCanCycle(a: U64, b: U64, n: nat, position: Position)
    requires a != b && a != 0 && b != 0 && position.cookie != a
    ensures |Cycle(a, b, n)| == n && FollowsAll(position, Cycle(a, b, n))
    ensures n >= 3 ==> !AcceptsAll(START, Cycle(a, b, n))
    decreases n
  {
    if n > 0 {
      var first := Reply([Entry(a, "entry")], 1, false);
      var rest := Cycle(b, a, n - 1);
      assert ([first] + rest)[1..] == rest;
      PagesCanCycle(b, a, n - 1, Position(a, 1));
    }
    if n >= 3 {
      CycleRepeats(a, b, n);
      AcceptedExactly(START, Cycle(a, b, n));
    }
  }

  lemma CycleRepeats(a: U64, b: U64, n: nat)
    requires n >= 3
    ensures !NoRepeat(Cycle(a, b, n))
  {
    var page, other := Reply([Entry(a, "entry")], 1, false), Reply([Entry(b, "entry")], 1, false);
    var rest := Cycle(b, a, n - 3);
    assert Cycle(a, b, n - 2) == [page] + Cycle(b, a, n - 3);
    assert Cycle(b, a, n - 1) == [other] + Cycle(a, b, n - 2);
    var pages := Cycle(a, b, n);
    assert pages == [page] + ([other] + ([page] + rest));
    assert pages[0] == page && pages[2] == page;
  }

  // Servers.

  predicate WellFormed(dir: seq<Entry>) {
    && (forall i | 0 <= i < |dir| :: dir[i].cookie != 0)
    && (forall i, j | 0 <= i < j < |dir| :: dir[i].cookie != dir[j].cookie)
  }

  /** `cookie` is the boundary in front of entry `i`. */
  predicate At(dir: seq<Entry>, cookie: U64, i: nat) {
    i <= |dir| && if i == 0 then cookie == 0 else dir[i - 1].cookie == cookie
  }

  /** A run of entries from the requested boundary on; EOF only at the end. */
  predicate Honest(dir: seq<Entry>, cookie: U64, reply: Reply) {
    forall i | 0 <= i <= |dir| && At(dir, cookie, i) ::
      && i + |reply.entries| <= |dir| && reply.entries == dir[i..i + |reply.entries|]
      && (reply.eof ==> i + |reply.entries| == |dir|)
  }

  /** One READDIR: where it asked and what came back. */
  datatype Exchange = Exchange(position: Position, answer: Result<Reply>)

  /** Answers READDIR and keeps a log of it: of an ordered server only honest replies
      are known, of any other server nothing. */
  class Server {
    const directory: Option<seq<Entry>>
    ghost var log: seq<Exchange>

    predicate Ordered() {
      directory.Some? && WellFormed(directory.value)
    }

    constructor (directory: Option<seq<Entry>>)
      ensures this.directory == directory && log == []
    {
      this.directory, this.log := directory, [];
    }

    method Fetch(position: Position) returns (r: Result<Reply>)
      modifies this`log
      ensures log == old(log) + [Exchange(position, r)]
      ensures r.Ok? && Ordered() ==> Honest(directory.value, position.cookie, r.value)
    {
      r := *;
      if {
        case true => r := Err(Rpc("READDIR failed"));
        case r.Ok? && (Ordered() ==> Honest(directory.value, position.cookie, r.value)) =>
      }
      log := log + [Exchange(position, r)];
    }
  }

  // Listings.

  predicate Special(name: string) { name == "." || name == ".." }

  /** The public listing of raw entries. */
  function Listed(entries: seq<Entry>): seq<string> {
    if entries == [] then []
    else Listed(entries[..|entries| - 1]) +
         if Special(entries[|entries| - 1].name) then [] else [entries[|entries| - 1].name]
  }

  lemma {:induction false} ListedConcat(a: seq<Entry>, b: seq<Entry>)
    ensures Listed(a + b) == Listed(a) + Listed(b)
  {
    if b == [] {
      assert a + b == a;
    } else {
      assert (a + b)[..|a + b| - 1] == a + b[..|b| - 1];
      ListedConcat(a, b[..|b| - 1]);
    }
  }

  /** The public names are those of all entries but the two special ones. */
  lemma {:induction false} ListedExactly(entries: seq<Entry>, name: string)
    ensures name in Listed(entries) <==> name != "." && name != ".." && exists e <- entries :: e.name == name
  {
    if entries != [] {
      var init, last := entries[..|entries| - 1], entries[|entries| - 1];
      ListedExactly(init, name);
      assert entries == init + [last];
      if e :| e in entries && e.name == name { assert e in init || e == last; }
      assert last in entries;
    }
  }

  ghost function Entries(replies: seq<Reply>): seq<Entry> {
    if replies == [] then [] else Entries(replies[..|replies| - 1]) + replies[|replies| - 1].entries
  }

  /** An ordered server's page is never mistaken for a repeat, and leads on. */
  lemma HonestPage(dir: seq<Entry>, i: nat, c: Cursor, reply: Reply)
    requires WellFormed(dir) && At(dir, c.position.cookie, i) && Honest(dir, c.position.cookie, reply)
    requires forall x <- c.seen :: x == 0 || exists k | 0 <= k < i :: dir[k].cookie == x
    ensures i + |reply.entries| <= |dir|
    ensures At(dir, Last(reply.entries, c.position.cookie), i + |reply.entries|)
    ensures reply.entries != [] ==> Last(reply.entries, c.position.cookie) !in c.seen
    ensures forall x <- Next(c, reply).seen :: x == 0 || exists k | 0 <= k < i + |reply.entries| :: dir[k].cookie == x
    ensures dir[..i] + reply.entries == dir[..i + |reply.entries|]
  {
    var n := |reply.entries|;
    if n > 0 {
      assert reply.entries[n - 1] == dir[i + n - 1];
    }
  }

  lemma {:induction false} SeenBounded(seen: set<U64>, n: nat)
    requires forall x <- seen :: x < n
    ensures |seen| <= n
  {
    if n == 0 {
      assert seen == {};
    } else {
      SeenBounded(seen - {n - 1}, n - 1);
      assert |seen| <= |seen - {n - 1}| + 1;
    }
  }

  ghost predicate Covered(dir: seq<Entry>, i: nat, c: Cursor, replies: seq<Reply>) {
    && At(dir, c.position.cookie, i) && Entries(replies) == dir[..i]
    && forall x <- c.seen :: x == 0 || exists k | 0 <= k < i :: dir[k].cookie == x
  }

  lemma CoveredStep(dir: seq<Entry>, i: nat, c: Cursor, replies: seq<Reply>, reply: Reply)
    requires WellFormed(dir) && Covered(dir, i, c, replies) && Honest(dir, c.position.cookie, reply)
    ensures i + |reply.entries| <= |dir|
    ensures Covered(dir, i + |reply.entries|, Next(c, reply), replies + [reply])
    ensures !Accepts(c, reply) ==> reply.entries == [] && !reply.eof
    ensures reply.eof ==> Entries(replies + [reply]) == dir
  {
    HonestPage(dir, i, c, reply);
    EntriesPush(replies, reply);
  }

  lemma EntriesPush(replies: seq<Reply>, reply: Reply)
    ensures Entries(replies + [reply]) == Entries(replies) + reply.entries
    ensures Listed(Entries(replies + [reply])) == Listed(Entries(replies)) + Listed(reply.entries)
  {
    assert (replies + [reply])[..|replies|] == replies;
    ListedConcat(Entries(replies), reply.entries);
  }

  lemma CoveredPrefix(server: Server, i: nat, c: Cursor, replies: seq<Reply>)
    requires server.Ordered() ==> Covered(server.directory.value, i, c, replies)
    ensures server.Ordered() ==> Entries(replies) <= server.directory.value
    ensures server.Ordered() ==> Listed(Entries(replies)) <= Listed(server.directory.value)
  {
    if server.Ordered() {
      var dir := server.directory.value;
      ListedConcat(dir[..i], dir[i..]);
      assert dir == dir[..i] + dir[i..];
    }
  }

  lemma NothingExchanged()
    ensures Exchanged([], [], None, Ok(())) && OnTrack([], START.position)
  {
  }

  lemma FirstPage(server: Server)
    ensures AcceptsAll(START, []) && Fed(START, []) == START && Listed(Entries([])) == []
    ensures server.Ordered() ==> Covered(server.directory.value, 0, START, [])
  {
  }

  /** The exchanges of a listing: each accepted reply answered a request from the
      position the cursor had reached, and so did the one that ended the listing. */
  ghost predicate Exchanged(part: seq<Exchange>, replies: seq<Reply>, refused: Option<Reply>, r: Result<()>) {
    && |replies| <= |part|
    && (forall k | 0 <= k < |replies| :: part[k] == Exchange(Fed(START, replies[..k]).position, Ok(replies[k])))
    && (r.Ok? ==> |part| == |replies| && refused.None?)
    && (r.Err? ==> |part| == |replies| + 1
                   && part[|replies|] == Exchange(Fed(START, replies).position,
                                                  if refused.Some? then Ok(refused.value) else Err(r.error)))
  }

  /** The position right behind these exchanges: the last cookie and the verifier of the
      last reply, together, and the start before the first. */
  ghost function Behind(part: seq<Exchange>): Position {
    if part == [] then Position(0, 0)
    else
      var last := part[|part| - 1];
      if last.answer.Ok? && last.answer.value.entries != []
      then Position(End(last.answer.value), last.answer.value.verifier) else last.position
  }

  /** Each request is from the position right behind the exchanges before it. */
  ghost predicate Chained(part: seq<Exchange>) {
    forall k | 0 <= k < |part| :: part[k].position == Behind(part[..k])
  }

  ghost predicate OnTrack(part: seq<Exchange>, position: Position) {
    Chained(part) && position == Behind(part)
  }

  lemma StaysOnTrack(part: seq<Exchange>, c: Cursor, answer: Result<Reply>)
    requires OnTrack(part, c.position)
    ensures Chained(part + [Exchange(c.position, answer)])
    ensures answer.Ok? && answer.value.entries != [] ==>
      OnTrack(part + [Exchange(c.position, answer)], Next(c, answer.value).position)
  {
    hide Behind;
    var more := part + [Exchange(c.position, answer)];
    forall k | 0 <= k < |more| ensures more[k].position == Behind(more[..k]) {
      assert k < |part| ==> more[..k] == part[..k];
      assert more[..|part|] == part;
    }
    if answer.Ok? && answer.value.entries != [] { NextIsBehind(part, c, answer.value); }
  }

  lemma NextIsBehind(part: seq<Exchange>, c: Cursor, reply: Reply)
    requires reply.entries != []
    ensures Behind(part + [Exchange(c.position, Ok(reply))]) == Next(c, reply).position
  {
  }

  lemma ExchangedPush(part: seq<Exchange>, replies: seq<Reply>, reply: Reply)
    requires Exchanged(part, replies, None, Ok(()))
    ensures Exchanged(part + [Exchange(Fed(START, replies).position, Ok(reply))], replies + [reply], None, Ok(()))
  {
    hide Fed;
    var more := replies + [reply];
    forall k | 0 <= k < |more| ensures k < |replies| ==> more[..k] == replies[..k] { }
    assert more[..|replies|] == replies;
  }

  lemma ExchangedEnds(part: seq<Exchange>, replies: seq<Reply>, refused: Option<Reply>, e: NfsError)
    requires Exchanged(part, replies, None, Ok(()))
    ensures var last := Exchange(Fed(START, replies).position, if refused.Some? then Ok(refused.value) else Err(e));
      Exchanged(part + [last], replies, refused, Err(e))
  {
    hide Fed;
  }

  lemma AdvanceIsNext(c: Cursor, reply: Reply)
    ensures var cookie := Last(reply.entries, c.position.cookie);
      && (Accepts(c, reply) <==> Admissible(c.seen, cookie, |reply.entries|, reply.eof))
      && Next(c, reply) == Moved(c, cookie, reply.verifier, |reply.entries|)
      && (Accepts(c, reply) && !reply.eof ==> reply.entries != [] && |Next(c, reply).seen| == |c.seen| + 1)
  {
  }

  /** The stream.  Against any server it ends, and what it yields is the public
      listing of pages whose last cookies never repeat: the replies the server gave
      to requests from the cursor's positions.  Against an ordered server a
      listing that ends well is the whole directory, one that fails is a prefix, and
      the only complaint about a page is that it was empty without EOF. */
  method ListDirectory(server: Server) returns (names: seq<string>, r: Result<()>,
    ghost replies: seq<Reply>, ghost refused: Option<Reply>)
    modifies server`log
    ensures old(server.log) <= server.log
    ensures Exchanged(server.log[|old(server.log)|..], replies, refused, r)
    ensures Chained(server.log[|old(server.log)|..])
    ensures AcceptsAll(START, replies) && names == Listed(Entries(replies))
    ensures Fresh({0}, replies) && NoRepeat(replies)
    ensures r.Ok? ==> replies != [] && replies[|replies| - 1].eof
    ensures server.Ordered() && r.Ok? ==> Entries(replies) == server.directory.value
    ensures server.Ordered() && r.Ok? ==> names == Listed(server.directory.value)
    ensures server.Ordered() ==> names <= Listed(server.directory.value)
    ensures server.Ordered() ==> Entries(replies) <= server.directory.value
    ensures refused.Some? ==> r == Err(NO_PROGRESS) && !AcceptsAll(START, replies + [refused.value])
    ensures server.Ordered() && refused.Some? ==> refused.value.entries == [] && !refused.value.eof
  {
    hide Listing, Chained, OnTrack, Exchanged, Next, Accepts, Moved, Admissible, Last, Listed, Entries, AcceptsAll;
    hide Honest, Fresh, NoRepeat;
    ghost var part: seq<Exchange> := [];
    var cursor := new DirectoryCursor.Default();
    names, replies, refused := [], [], None;
    ghost var i: nat := 0;
    ListingStarts(server);
    while true
      invariant Listing(server, part, replies, names, cursor.View(), i) && refused.None?
      invariant OnTrack(part, cursor.View().position) && server.log == old(server.log) + part
      decreases TWO_TO_THE_64 - |cursor.seen|
    {
      ghost var before := cursor.View();
      var fetched := server.Fetch(Position(cursor.cookie, cursor.verifier));
      ghost var exchange := Exchange(Position(cursor.cookie, cursor.verifier), fetched);
      StaysOnTrack(part, before, fetched);
      if fetched.Err? {
        ListingFails(server, part, replies, names, before, i, fetched.error);
        part := part + [exchange];
        r := Err(fetched.error);
        break;
      }
      var reply := fetched.value;
      var more := cursor.Advance(Last(reply.entries, cursor.cookie), reply.verifier, |reply.entries|, reply.eof);
      AdvanceIsNext(before, reply);
      if more.Err? {
        ListingRefuses(server, part, replies, names, before, i, reply, more.error);
        part := part + [exchange];
        r, refused := Err(more.error), Some(reply);
        break;
      }
      ListingStep(server, part, replies, names, before, i, reply);
      part := part + [exchange];
      names := names + Listed(reply.entries);
      i, replies := i + |reply.entries|, replies + [reply];
      if !more.value {
        ListingEnds(server, part, replies, names, cursor.View(), i);
        r := Ok(());
        break;
      }
      SeenBounded(cursor.seen, TWO_TO_THE_64);
    }
    assert server.log[|old(server.log)|..] == part;
    AcceptedExactly(START, replies);
  }

  /** Where a listing stands: the pages so far were accepted and bring the cursor here,
      the names are theirs, and on an ordered server they are its first `i` entries. */
  ghost predicate Listing(server: Server, part: seq<Exchange>, replies: seq<Reply>, names: seq<string>,
                          c: Cursor, i: nat) {
    && AcceptsAll(START, replies) && Fed(START, replies) == c && names == Listed(Entries(replies))
    && Exchanged(part, replies, None, Ok(()))
    && (server.Ordered() ==> Covered(server.directory.value, i, c, replies))
  }

  lemma ListingStarts(server: Server)
    ensures Listing(server, [], [], [], START, 0) && OnTrack([], START.position)
  {
    hide Covered;
    FirstPage(server);
    NothingExchanged();
  }

  lemma ListingStep(server: Server, part: seq<Exchange>, replies: seq<Reply>, names: seq<string>, c: Cursor, i: nat,
                    reply: Reply)
    requires Listing(server, part, replies, names, c, i) && Accepts(c, reply)
    requires server.Ordered() ==> Honest(server.directory.value, c.position.cookie, reply)
    ensures Listing(server, part + [Exchange(c.position, Ok(reply))], replies + [reply], names + Listed(reply.entries),
                    Next(c, reply), i + |reply.entries|)
    ensures server.Ordered() && reply.eof ==> Entries(replies + [reply]) == server.directory.value
  {
    hide AcceptsAll, Fed, Entries, Listed, Exchanged, Covered, Honest, Accepts, Next, WellFormed;
    FedPush(START, replies, reply);
    ExchangedPush(part, replies, reply);
    EntriesPush(replies, reply);
    if server.Ordered() { CoveredStep(server.directory.value, i, c, replies, reply); }
  }

  /** On an ordered server the pages so far are a prefix of the directory. */
  lemma ListingCovers(server: Server, part: seq<Exchange>, replies: seq<Reply>, names: seq<string>, c: Cursor, i: nat)
    requires Listing(server, part, replies, names, c, i)
    ensures AcceptsAll(START, replies) && names == Listed(Entries(replies))
    ensures server.Ordered() ==> names <= Listed(server.directory.value) && Entries(replies) <= server.directory.value
  {
    hide AcceptsAll, Fed, Entries, Listed, Exchanged, Covered, WellFormed;
    CoveredPrefix(server, i, c, replies);
  }

  lemma ListingEnds(server: Server, part: seq<Exchange>, replies: seq<Reply>, names: seq<string>, c: Cursor, i: nat)
    requires Listing(server, part, replies, names, c, i)
    requires server.Ordered() ==> Entries(replies) == server.directory.value
    ensures Exchanged(part, replies, None, Ok(())) && AcceptsAll(START, replies) && names == Listed(Entries(replies))
    ensures server.Ordered() ==> names <= Listed(server.directory.value) && Entries(replies) <= server.directory.value
    ensures server.Ordered() ==> names == Listed(server.directory.value)
  {
    hide AcceptsAll, Fed, Entries, Listed, Exchanged, Covered, WellFormed;
    ListingCovers(server, part, replies, names, c, i);
  }

  lemma ListingFails(server: Server, part: seq<Exchange>, replies: seq<Reply>, names: seq<string>, c: Cursor, i: nat,
                     e: NfsError)
    requires Listing(server, part, replies, names, c, i)
    ensures Exchanged(part + [Exchange(c.position, Err(e))], replies, None, Err(e))
    ensures AcceptsAll(START, replies) && names == Listed(Entries(replies))
    ensures server.Ordered() ==> names <= Listed(server.directory.value) && Entries(replies) <= server.directory.value
  {
    hide AcceptsAll, Fed, Entries, Listed, Exchanged, Covered, WellFormed;
    ListingCovers(server, part, replies, names, c, i);
    ExchangedEnds(part, replies, None, e);
  }

  lemma ListingRefuses(server: Server, part: seq<Exchange>, replies: seq<Reply>, names: seq<string>, c: Cursor, i: nat,
                       reply: Reply, e: NfsError)
    requires Listing(server, part, replies, names, c, i) && !Accepts(c, reply)
    requires server.Ordered() ==> Honest(server.directory.value, c.position.cookie, reply)
    ensures Exchanged(part + [Exchange(c.position, Ok(reply))], replies, Some(reply), Err(e))
    ensures AcceptsAll(START, replies) && names == Listed(Entries(replies)) && !AcceptsAll(START, replies + [reply])
    ensures server.Ordered() ==> names <= Listed(server.directory.value) && Entries(replies) <= server.directory.value
    ensures server.Ordered() ==> reply.entries == [] && !reply.eof
  {
    hide AcceptsAll, Fed, Entries, Listed, Exchanged, Covered, Honest, Accepts, Next, WellFormed;
    ListingCovers(server, part, replies, names, c, i);
    FedPush(START, replies, reply);
    ExchangedEnds(part, replies, Some(reply), e);
    if server.Ordered() { CoveredStep(server.directory.value, i, c, replies, reply); }
  }

  datatype PublicPage = PublicPage(names: seq<string>, next: Position, eof: bool)

  /** The page call: the public names of one reply and where to go on. */
  method IntoPage(reply: Reply, position: Position) returns (r: Result<PublicPage>)
    ensures r.Ok? <==> Accepts(Resumed(position), reply)
    ensures r.Err? ==> r.error == NO_PROGRESS
    ensures r.Ok? ==> r.value.names == Listed(reply.entries) && r.value.eof == reply.eof
    ensures r.Ok? ==> r.value.next == if reply.entries == [] then position else Next(Resumed(position), reply).position
  {
    var lastCookie, received, names := position.cookie, 0, [];
    while received < |reply.entries|
      invariant 0 <= received <= |reply.entries|
      invariant lastCookie == Last(reply.entries[..received], position.cookie)
      invariant names == Listed(reply.entries[..received])
    {
      var node := reply.entries[received];
      received, lastCookie := received + 1, node.cookie;
      assert reply.entries[..received][..received - 1] == reply.entries[..received - 1];
      if !Special(node.name) {
        names := names + [node.name];
      }
    }
    assert reply.entries[..received] == reply.entries;
    var cursor := new DirectoryCursor.Resume(position);
    var next := cursor.Page(lastCookie, reply.verifier, received, reply.eof);
    if next.Err? {
      return Err(next.error);
    }
    return Ok(PublicPage(names, next.value, reply.eof));
  }

  /** Resuming on an ordered server: a page is refused only if it is empty without
      EOF, and its next position is the boundary behind the entries it gave, so the
      pages a caller follows are consecutive pieces of the directory. */
  lemma ResumedPagesAreConsecutive(dir: seq<Entry>, i: nat, position: Position, reply: Reply)
    requires WellFormed(dir) && At(dir, position.cookie, i) && Honest(dir, position.cookie, reply)
    ensures Accepts(Resumed(position), reply) <==> reply.entries != [] || reply.eof
    ensures At(dir, Next(Resumed(position), reply).position.cookie, i + |reply.entries|)
    ensures dir[..i] + reply.entries == dir[..i + |reply.entries|]
    ensures reply.eof ==> dir[..i] + reply.entries == dir
  {
    assert i > 0 ==> dir[i - 1].cookie == position.cookie;
    HonestPage(dir, i, Resumed(position), reply);
  }

  /** A caller that follows the page call from the start, asking each time where the
      last page pointed.  On an ordered server it comes to an end, success yields the
      whole directory, and only a failed READDIR or a page that is empty without EOF
      keeps it from that.  On other servers it may go round for ever. */
  method ListByPages(server: Server) returns (names: seq<string>, r: Result<()>)
    requires server.Ordered()
    modifies server`log
    ensures old(server.log) < server.log && Chained(server.log[|old(server.log)|..])
    ensures r.Ok? ==> names == Listed(server.directory.value)
    ensures names <= Listed(server.directory.value)
    ensures r.Err? ==> Stopped(server.log[|server.log| - 1].answer, r.error)
  {
    hide WellFormed, Honest, Listed, Next, Accepts, At, Chained, OnTrack;
    var dir := server.directory.value;
    var position := Position(0, 0);
    ghost var i: nat := 0;
    ghost var part: seq<Exchange> := [];
    names := [];
    NothingListed(dir);
    while true
      invariant server.log == old(server.log) + part && OnTrack(part, position)
      invariant i <= |dir| && At(dir, position.cookie, i) && names == Listed(dir[..i]) && names <= Listed(dir)
      decreases |dir| - i
    {
      var fetched := server.Fetch(position);
      StaysOnTrack(part, Resumed(position), fetched);
      part := part + [Exchange(position, fetched)];
      assert server.log == old(server.log) + part && server.log[|old(server.log)|..] == part;
      if fetched.Err? {
        return names, Err(fetched.error);
      }
      var reply := fetched.value;
      ResumedPagesAreConsecutive(dir, i, position, reply);
      var page := IntoPage(reply, position);
      if page.Err? {
        return names, Err(page.error);
      }
      ListedConcat(dir[..i], reply.entries);
      ListedPrefix(dir, i + |reply.entries|);
      names := names + page.value.names;
      if page.value.eof {
        return names, Ok(());
      }
      i, position := i + |reply.entries|, page.value.next;
    }
  }

  /** READDIR failed with this error, or gave a page that is empty without EOF. */
  ghost predicate Stopped(answer: Result<Reply>, e: NfsError) {
    if answer.Err? then answer.error == e else answer.value.entries == [] && !answer.value.eof && e == NO_PROGRESS
  }

  lemma NothingListed(dir: seq<Entry>)
    ensures Listed(dir[..0]) == [] <= Listed(dir) && At(dir, 0, 0)
    ensures OnTrack([], Position(0, 0))
  {
  }

  lemma ListedPrefix(dir: seq<Entry>, i: nat)
    requires i <= |dir|
    ensures Listed(dir[..i]) <= Listed(dir)
  {
    hide Listed;
    ListedConcat(dir[..i], dir[i..]);
    assert dir == dir[..i] + dir[i..];
  }
}
