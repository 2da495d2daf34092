/** src/nfs3/acl.rs: the NFSACL list codec and the GETACL reply. */
module Acl {
  import opened Errors
  import opened Xdr

  const FULL_MASK: Word := 15
  const DEFAULT_TAG: Word := 0x1000
  const MAX_ENTRIES: nat := 1024
  const NFS3ERR_NOTSUPP: Word := 10004

  datatype Entry = Entry(tag: Word, id: Word, permissions: Word)
  datatype PosixAcl = PosixAcl(access: seq<Entry>, defaults: seq<Entry>)

  predicate ValidEntry(e: Entry) {
    e.tag in {1, 2, 4, 8, 16, 32} && e.permissions <= 7
  }

  function Bits(read: bool, write: bool, execute: bool): Word {
    (if read then 4 else 0) + (if write then 2 else 0) + (if execute then 1 else 0)
  }

  /** A valid entry has one of the six tags, each a bit of its own, and any set of the
      three permissions. */
  lemma ValidEntryExactly(e: Entry)
    ensures ValidEntry(e) <==>
      && (exists i | 0 <= i < 6 :: e.tag == [1, 2, 4, 8, 16, 32][i])
      && (exists read, write, execute :: e.permissions == Bits(read, write, execute))
  {
    var tags := [1, 2, 4, 8, 16, 32];
    assert tags[0] == 1 && tags[1] == 2 && tags[2] == 4 && tags[3] == 8 && tags[4] == 16 && tags[5] == 32;
    if e.permissions <= 7 {
      var p := e.permissions;
      assert p == Bits(p >= 4, p % 4 >= 2, p % 2 == 1);
    }
  }

  predicate ValidList(entries: seq<Entry>) {
    |entries| <= MAX_ENTRIES && forall i | 0 <= i < |entries| :: ValidEntry(entries[i])
  }

  // Bit 0x1000 of a word: test, set and clear.

  predicate Flagged(w: Word) { w / 0x1000 % 2 == 1 }

  function SetFlag(w: Word): Word { if Flagged(w) then w else w + 0x1000 }

  function ClearFlag(w: Word): Word { if Flagged(w) then w - 0x1000 else w }

  // The wire form.

  function EntryBytes(e: Entry, asDefault: bool): (b: seq<Byte>)
    ensures |b| == 12
  {
    WordBytes(if asDefault then SetFlag(e.tag) else e.tag) + WordBytes(e.id) + WordBytes(e.permissions)
  }

  function Body(entries: seq<Entry>, asDefault: bool): (b: seq<Byte>)
    ensures |b| == 12 * |entries|
  {
    if entries == [] then []
    else Body(entries[..|entries| - 1], asDefault) + EntryBytes(entries[|entries| - 1], asDefault)
  }

  function Encoded(entries: seq<Entry>, asDefault: bool): (b: seq<Byte>)
    requires |entries| <= MAX_ENTRIES
    ensures |b| == 8 + 12 * |entries|
  {
    WordBytes(|entries|) + WordBytes(|entries|) + Body(entries, asDefault)
  }

  lemma {:induction false} BodyAt(entries: seq<Entry>, asDefault: bool, i: nat)
    requires i < |entries|
    ensures Body(entries, asDefault)[12 * i..12 * i + 12] == EntryBytes(entries[i], asDefault)
  {
    hide EntryBytes;
    var init := entries[..|entries| - 1];
    if i < |init| {
      BodyAt(init, asDefault, i);
      assert Body(entries, asDefault)[..12 * |init|] == Body(init, asDefault);
      assert Body(entries, asDefault)[12 * i..12 * i + 12] == Body(init, asDefault)[12 * i..12 * i + 12];
    }
  }

  lemma BodyGrows(entries: seq<Entry>, asDefault: bool, i: nat)
    requires i < |entries|
    ensures Body(entries[..i + 1], asDefault) == Body(entries[..i], asDefault) + EntryBytes(entries[i], asDefault)
  {
    hide EntryBytes;
    assert entries[..i + 1][..i] == entries[..i];
  }

  lemma EntryInjective(e: Entry, f: Entry, asDefault: bool)
    requires ValidEntry(e) && ValidEntry(f) && EntryBytes(e, asDefault) == EntryBytes(f, asDefault)
    ensures e == f
  {
    EntryWords(e, asDefault);
    EntryWords(f, asDefault);
  }

  lemma EntryWords(e: Entry, asDefault: bool)
    requires ValidEntry(e)
    ensures var b := EntryBytes(e, asDefault);
      && WordAt(b) == (if asDefault then e.tag + 0x1000 else e.tag)
      && WordAt(b[4..]) == e.id && WordAt(b[8..]) == e.permissions
      && Flagged(WordAt(b)) == asDefault && ClearFlag(WordAt(b)) == e.tag
  {
    var b := EntryBytes(e, asDefault);
    var raw := if asDefault then SetFlag(e.tag) else e.tag;
    WordOfBytes(raw, WordBytes(e.id) + WordBytes(e.permissions));
    WordOfBytes(e.id, WordBytes(e.permissions));
    WordOfBytes(e.permissions, []);
    assert b == WordBytes(raw) + (WordBytes(e.id) + WordBytes(e.permissions));
    assert b[4..] == WordBytes(e.id) + WordBytes(e.permissions);
    assert b[8..] == WordBytes(e.permissions) + [];
  }

  /** The codec is prefix-free: bytes begin with the form of at most one list. */
  lemma EncodedUnique(a: seq<Entry>, b: seq<Entry>, asDefault: bool, bytes: seq<Byte>)
    requires ValidList(a) && ValidList(b)
    requires Encoded(a, asDefault) <= bytes && Encoded(b, asDefault) <= bytes
    ensures a == b
  {
    CountWord(a, asDefault, bytes);
    CountWord(b, asDefault, bytes);
    forall i | 0 <= i < |a| ensures a[i] == b[i] {
      EntryAt(a, asDefault, bytes, i);
      EntryAt(b, asDefault, bytes, i);
      EntryInjective(a[i], b[i], asDefault);
    }
  }

  lemma CountWord(entries: seq<Entry>, asDefault: bool, bytes: seq<Byte>)
    requires |entries| <= MAX_ENTRIES && Encoded(entries, asDefault) <= bytes
    ensures WordAt(bytes) == |entries| && WordAt(bytes[4..]) == |entries|
  {
    var n := |entries|;
    WordOfBytes(n, WordBytes(n) + Body(entries, asDefault));
    WordOfBytes(n, Body(entries, asDefault));
    var e := Encoded(entries, asDefault);
    assert e == WordBytes(n) + (WordBytes(n) + Body(entries, asDefault));
    assert bytes[..4] == e[..4] && bytes[4..][..4] == e[4..][..4];
  }

  lemma EntryAt(entries: seq<Entry>, asDefault: bool, bytes: seq<Byte>, i: nat)
    requires |entries| <= MAX_ENTRIES && Encoded(entries, asDefault) <= bytes && i < |entries|
    ensures bytes[8 + 12 * i..8 + 12 * i + 12] == EntryBytes(entries[i], asDefault)
  {
    var e := Encoded(entries, asDefault);
    BodyAt(entries, asDefault, i);
    assert e[8..] == Body(entries, asDefault);
    assert bytes[8 + 12 * i..8 + 12 * i + 12] == e[8 + 12 * i..8 + 12 * i + 12] == e[8..][12 * i..12 * i + 12];
  }

  lemma EntryAhead(entries: seq<Entry>, asDefault: bool, bytes: seq<Byte>, i: nat)
    requires |entries| <= MAX_ENTRIES && Encoded(entries, asDefault) <= bytes && i < |entries|
    ensures EntryBytes(entries[i], asDefault) <= bytes[8 + 12 * i..]
  {
    EntryAt(entries, asDefault, bytes, i);
    assert bytes[8 + 12 * i..][..12] == bytes[8 + 12 * i..8 + 12 * i + 12];
  }

  // The encoder and the decoder.

  class Writer {
    var data: seq<Byte>

    method PutU32(w: Word)
      modifies this
      ensures data == old(data) + WordBytes(w)
    {
      data := data + WordBytes(w);
    }
  }

  /** Appends the wire form of a valid list and refuses every other list untouched. */
  method EncodeAcl(out: Writer, entries: seq<Entry>, asDefault: bool) returns (r: Result<()>)
    modifies out
    ensures r.Ok? <==> ValidList(entries)
    ensures r.Ok? ==> out.data == old(out.data) + Encoded(entries, asDefault)
    ensures r.Err? ==> r.error.InvalidInput? && out.data == old(out.data)
  {
    hide Body, EntryBytes, Encoded, WordBytes, ValidEntry;
    if |entries| > MAX_ENTRIES || exists i | 0 <= i < |entries| :: !ValidEntry(entries[i]) {
      return Err(InvalidInput("NFSACL invalid ACL entries or entry limit exceeded"));
    }
    out.PutU32(|entries|);
    out.PutU32(|entries|);
    ghost var head := out.data;
    var i := 0;
    EncodedParts(entries, asDefault, old(out.data), head);
    while i < |entries|
      invariant 0 <= i <= |entries|
      invariant out.data == head + Body(entries[..i], asDefault)
    {
      BodyPush(head, entries, i, asDefault);
      EncodeEntry(out, entries[i], asDefault);
      i := i + 1;
    }
    assert entries[..i] == entries;
    return Ok(());
  }

  method EncodeEntry(out: Writer, entry: Entry, asDefault: bool)
    modifies out
    ensures out.data == old(out.data) + EntryBytes(entry, asDefault)
  {
    out.PutU32(if asDefault then SetFlag(entry.tag) else entry.tag);
    out.PutU32(entry.id);
    out.PutU32(entry.permissions);
  }

  lemma BodyPush(head: seq<Byte>, entries: seq<Entry>, i: nat, asDefault: bool)
    requires i < |entries|
    ensures head + Body(entries[..i], asDefault) + EntryBytes(entries[i], asDefault) ==
      head + Body(entries[..i + 1], asDefault)
  {
    BodyGrows(entries, asDefault, i);
  }

  lemma EncodedParts(entries: seq<Entry>, asDefault: bool, before: seq<Byte>, head: seq<Byte>)
    requires |entries| <= MAX_ENTRIES && head == before + WordBytes(|entries|) + WordBytes(|entries|)
    ensures head + Body(entries, asDefault) == before + Encoded(entries, asDefault)
    ensures head == head + Body(entries[..0], asDefault)
  {
  }

  /** Reads one triple, or shows that no valid entry has these bytes. */
  method DecodeEntry(bytes: Reader, asDefault: bool) returns (r: Result<Entry>)
    modifies bytes
    ensures r.Ok? ==> ValidEntry(r.value) && old(bytes.rest) == EntryBytes(r.value, asDefault) + bytes.rest
    ensures r.Err? ==> r.error.Xdr? && forall e | ValidEntry(e) :: !(EntryBytes(e, asDefault) <= old(bytes.rest))
  {
    ghost var start := bytes.rest;
    var raw := bytes.ReadU32();
    if raw.Err? { return Err(raw.error); }
    if Flagged(raw.value) != asDefault {
      FirstWord(start, raw.value, bytes.rest, asDefault);
      return Err(Xdr("NFSACL access/default entry flag mismatch"));
    }
    var id := bytes.ReadU32();
    if id.Err? { return Err(id.error); }
    var permissions := bytes.ReadU32();
    if permissions.Err? { return Err(permissions.error); }
    var entry := Entry(ClearFlag(raw.value), id.value, permissions.value);
    assert start == WordBytes(raw.value) + WordBytes(id.value) + WordBytes(permissions.value) + bytes.rest;
    if !ValidEntry(entry) {
      ThreeWords(start, raw.value, id.value, permissions.value, bytes.rest, asDefault);
      return Err(Xdr("NFSACL invalid ACL tag or permissions"));
    }
    return Ok(entry);
  }

  lemma FirstWord(start: seq<Byte>, raw: Word, rest: seq<Byte>, asDefault: bool)
    requires start == WordBytes(raw) + rest && Flagged(raw) != asDefault
    ensures forall e | ValidEntry(e) :: !(EntryBytes(e, asDefault) <= start)
  {
    WordOfBytes(raw, rest);
    forall e | ValidEntry(e) ensures !(EntryBytes(e, asDefault) <= start) {
      EntryWords(e, asDefault);
    }
  }

  lemma ThreeWords(start: seq<Byte>, raw: Word, id: Word, permissions: Word, rest: seq<Byte>, asDefault: bool)
    requires start == WordBytes(raw) + WordBytes(id) + WordBytes(permissions) + rest
    requires Flagged(raw) == asDefault && !ValidEntry(Entry(ClearFlag(raw), id, permissions))
    ensures forall e | ValidEntry(e) :: !(EntryBytes(e, asDefault) <= start)
  {
    assert start == WordBytes(raw) + (WordBytes(id) + WordBytes(permissions) + rest);
    WordOfBytes(raw, WordBytes(id) + WordBytes(permissions) + rest);
    WordOfBytes(permissions, rest);
    assert start[8..] == WordBytes(permissions) + rest;
    forall e | ValidEntry(e) ensures !(EntryBytes(e, asDefault) <= start) {
      if EntryBytes(e, asDefault) <= start {
        PrefixWords(e, asDefault, start);
      }
    }
  }

  lemma PrefixWords(e: Entry, asDefault: bool, bytes: seq<Byte>)
    requires ValidEntry(e) && EntryBytes(e, asDefault) <= bytes
    ensures Flagged(WordAt(bytes)) == asDefault && ClearFlag(WordAt(bytes)) == e.tag
    ensures WordAt(bytes[8..]) == e.permissions
  {
    EntryWords(e, asDefault);
    var b := EntryBytes(e, asDefault);
    assert bytes[..4] == b[..4] && bytes[8..][..4] == b[8..][..4];
  }

  lemma BadCount(start: seq<Byte>, count: Word, arrayCount: Word, rest: seq<Byte>, asDefault: bool)
    requires start == WordBytes(count) + (WordBytes(arrayCount) + rest)
    requires count != arrayCount || count > MAX_ENTRIES || count > |rest| / 12
    ensures forall entries | ValidList(entries) :: !(Encoded(entries, asDefault) <= start)
  {
    WordOfBytes(count, WordBytes(arrayCount) + rest);
    WordOfBytes(arrayCount, rest);
    forall entries | ValidList(entries) ensures !(Encoded(entries, asDefault) <= start) {
      if Encoded(entries, asDefault) <= start {
        CountWord(entries, asDefault, start);
      }
    }
  }

  lemma BadEntry(start: seq<Byte>, n: Word, read: seq<Entry>, rest: seq<Byte>, asDefault: bool)
    requires start == WordBytes(n) + (WordBytes(n) + (Body(read, asDefault) + rest)) && |read| < n
    requires forall e | ValidEntry(e) :: !(EntryBytes(e, asDefault) <= rest)
    ensures forall entries | ValidList(entries) :: !(Encoded(entries, asDefault) <= start)
  {
    var i := |read|;
    WordOfBytes(n, WordBytes(n) + (Body(read, asDefault) + rest));
    assert start[8 + 12 * i..] == rest;
    forall entries | ValidList(entries) ensures !(Encoded(entries, asDefault) <= start) {
      if Encoded(entries, asDefault) <= start {
        CountWord(entries, asDefault, start);
        EntryAhead(entries, asDefault, start, i);
      }
    }
  }

  lemma Regroup(n: Word, read: seq<Entry>, entry: Entry, rest: seq<Byte>, asDefault: bool)
    ensures WordBytes(n) + (WordBytes(n) + (Body(read, asDefault) + (EntryBytes(entry, asDefault) + rest))) ==
      WordBytes(n) + (WordBytes(n) + (Body(read + [entry], asDefault) + rest))
  {
    assert (read + [entry])[..|read|] == read;
    assert Body(read, asDefault) + (EntryBytes(entry, asDefault) + rest) == Body(read + [entry], asDefault) + rest;
  }

  lemma NoneRead(rest: seq<Byte>, asDefault: bool)
    ensures Body([], asDefault) + rest == rest
  {
  }

  lemma AllRead(entries: seq<Entry>, rest: seq<Byte>, asDefault: bool)
    requires |entries| <= MAX_ENTRIES
    ensures WordBytes(|entries|) + (WordBytes(|entries|) + (Body(entries, asDefault) + rest)) ==
      Encoded(entries, asDefault) + rest
  {
  }

  /** Sound and complete: an accepted list, written out again, gives the bytes that
      were consumed; bytes that begin with the form of a valid list give that list;
      refused bytes begin with the form of none. */
  method DecodeAcl(bytes: Reader, asDefault: bool) returns (r: Result<seq<Entry>>)
    modifies bytes
    ensures r.Ok? ==> ValidList(r.value) && old(bytes.rest) == Encoded(r.value, asDefault) + bytes.rest
    ensures forall entries | ValidList(entries) && Encoded(entries, asDefault) <= old(bytes.rest) :: r == Ok(entries)
    ensures r.Err? ==> r.error.Xdr?
  {
    hide Body, EntryBytes, Encoded, WordBytes, ValidEntry;
    ghost var start := bytes.rest;
    var count := bytes.ReadU32();
    if count.Err? { return Err(count.error); }
    var arrayCount := bytes.ReadU32();
    if arrayCount.Err? { return Err(arrayCount.error); }
    var n := count.value;
    if n != arrayCount.value || n > MAX_ENTRIES || n > |bytes.rest| / 12 {
      BadCount(start, n, arrayCount.value, bytes.rest, asDefault);
      return Err(Xdr("NFSACL invalid or truncated ACL count/array"));
    }
    var entries: seq<Entry>, i := [], 0;
    NoneRead(bytes.rest, asDefault);
    while i < n
      invariant 0 <= i <= n && |entries| == i && ValidList(entries)
      invariant start == WordBytes(n) + (WordBytes(n) + (Body(entries, asDefault) + bytes.rest))
    {
      ghost var before := bytes.rest;
      var entry := DecodeEntry(bytes, asDefault);
      if entry.Err? {
        BadEntry(start, n, entries, before, asDefault);
        return Err(entry.error);
      }
      Regroup(n, entries, entry.value, bytes.rest, asDefault);
      entries, i := entries + [entry.value], i + 1;
    }
    AllRead(entries, bytes.rest, asDefault);
    forall other | ValidList(other) && Encoded(other, asDefault) <= start ensures other == entries {
      EncodedUnique(other, entries, asDefault, start);
    }
    return Ok(entries);
  }

  // The GETACL reply: status, optional attributes, mask and the two lists.

  predicate KnownStatus(w: Word) {
    w in {0, 1, 2, 5, 6, 13, 17, 18, 19, 20, 21, 22, 27, 28, 30, 31, 63, 66, 69, 70, 71,
          10001, 10002, 10003, 10004, 10005, 10006, 10007, 10008}
  }

  function StatusError(status: Word): NfsError {
    if !KnownStatus(status) then Io(None)
    else if status == NFS3ERR_NOTSUPP then Unsupported("NFSACL v3 is unsupported for this object")
    else Nfs3(status)
  }

  /** A status the protocol knows is an answer and is passed on under its number, one it
      does not know is none: a query may be repeated, a change is left open. */
  lemma StatusTells(kind: OperationClass, context: Context, status: Word)
    requires status != 0
    ensures var e := Classify(kind, context, StatusError(status), false);
      && (e == StatusError(status) <==> KnownStatus(status))
      && (KnownStatus(status) && status != NFS3ERR_NOTSUPP ==> e == Nfs3(status))
      && (status == NFS3ERR_NOTSUPP ==> e.Unsupported?)
      && (!KnownStatus(status) ==>
            e.OperationOutcome? && e.outcome == if kind.ReadOnly? then SafeToRetry else Uncertain)
  {
  }

  ghost predicate IsLists(b: seq<Byte>, acl: PosixAcl) {
    && ValidList(acl.access) && ValidList(acl.defaults)
    && b == Encoded(acl.access, false) + Encoded(acl.defaults, true)
  }

  ghost predicate IsMasked(b: seq<Byte>, acl: PosixAcl) {
    |b| >= 4 && WordAt(b) == FULL_MASK && IsLists(b[4..], acl)
  }

  /** The attributes are absent (0) or present (1) with 84 bytes of content. */
  ghost function AttrsEnd(b: seq<Byte>): Option<nat> {
    if |b| >= 4 && WordAt(b) == 0 then Some(4)
    else if |b| >= 88 && WordAt(b) == 1 then Some(88)
    else None
  }

  ghost predicate IsBody(b: seq<Byte>, acl: PosixAcl) {
    AttrsEnd(b).Some? && AttrsEnd(b).value <= |b| && IsMasked(b[AttrsEnd(b).value..], acl)
  }

  ghost predicate IsGetReply(b: seq<Byte>, acl: PosixAcl) {
    |b| >= 4 && WordAt(b) == 0 && IsBody(b[4..], acl)
  }

  function Printed(attrs: Option<seq<Byte>>, acl: PosixAcl): seq<Byte>
    requires |acl.access| <= MAX_ENTRIES && |acl.defaults| <= MAX_ENTRIES
  {
    WordBytes(0) +
    ((if attrs.Some? then WordBytes(1) + attrs.value else WordBytes(0)) +
     (WordBytes(FULL_MASK) + (Encoded(acl.access, false) + Encoded(acl.defaults, true))))
  }

  /** What a server that follows the format prints is a reply with that content. */
  lemma PrintedIsReply(attrs: Option<seq<Byte>>, acl: PosixAcl)
    requires ValidList(acl.access) && ValidList(acl.defaults)
    requires attrs.Some? ==> |attrs.value| == 84
    ensures IsGetReply(Printed(attrs, acl), acl)
  {
    hide Encoded, WordBytes, WordAt, ValidEntry;
    var lists := Encoded(acl.access, false) + Encoded(acl.defaults, true);
    var masked := WordBytes(FULL_MASK) + lists;
    WordOfBytes(FULL_MASK, lists);
    assert IsMasked(masked, acl);
    var body := (if attrs.Some? then WordBytes(1) + attrs.value else WordBytes(0)) + masked;
    if attrs.Some? {
      assert body == WordBytes(1) + (attrs.value + masked);
      WordOfBytes(1, attrs.value + masked);
    } else {
      WordOfBytes(0, masked);
    }
    assert body[AttrsEnd(body).value..] == masked;
    WordOfBytes(0, body);
  }

  lemma ListsPrefix(b: seq<Byte>, acl: PosixAcl, c: seq<Byte>, other: PosixAcl)
    requires IsLists(b, acl) && IsLists(c, other) && c <= b
    ensures acl == other && c == b
  {
    hide Encoded, ValidEntry;
    EncodedUnique(acl.access, other.access, false, b);
    var n := |Encoded(acl.access, false)|;
    assert c[n..] <= b[n..] && b[n..] == Encoded(acl.defaults, true) && c[n..] == Encoded(other.defaults, true);
    EncodedUnique(acl.defaults, other.defaults, true, b[n..]);
  }

  /** A reply has one content and no reply is a strict prefix of another. */
  lemma ReplyPrefixFree(b: seq<Byte>, acl: PosixAcl, c: seq<Byte>, other: PosixAcl)
    requires IsGetReply(b, acl) && IsGetReply(c, other) && c <= b
    ensures acl == other && c == b
  {
    hide IsLists;
    var x, y := b[4..], c[4..];
    assert y <= x && AttrsEnd(x) == AttrsEnd(y) by { assert x[..4] == y[..4]; }
    var n := AttrsEnd(x).value;
    assert y[n..] <= x[n..] && y[n..][4..] <= x[n..][4..];
    ListsPrefix(x[n..][4..], acl, y[n..][4..], other);
    assert |c| == 4 + n + 4 + |y[n..][4..]| == |b|;
  }

  method DecodeStatus(bytes: Reader) returns (r: Result<()>)
    modifies bytes
    ensures r.Ok? <==> |old(bytes.rest)| >= 4 && WordAt(old(bytes.rest)) == 0
    ensures r.Ok? ==> bytes.rest == old(bytes.rest)[4..]
    ensures r.Err? ==> r.error == if |old(bytes.rest)| >= 4 then StatusError(WordAt(old(bytes.rest))) else Io(None)
  {
    var status := bytes.ReadU32();
    if status.Err? { return Err(Io(None)); }
    WordOfBytes(status.value, bytes.rest);
    if status.value == 0 { return Ok(()); }
    return Err(StatusError(status.value));
  }

  method SkipAttrs(bytes: Reader) returns (r: Result<()>)
    modifies bytes
    ensures r.Ok? <==> AttrsEnd(old(bytes.rest)).Some?
    ensures r.Ok? ==> AttrsEnd(old(bytes.rest)).value <= |old(bytes.rest)|
                      && bytes.rest == old(bytes.rest)[AttrsEnd(old(bytes.rest)).value..]
    ensures r.Err? ==> r.error.Xdr?
  {
    var present := bytes.ReadU32();
    if present.Err? { return Err(present.error); }
    WordOfBytes(present.value, bytes.rest);
    if present.value == 0 { return Ok(()); }
    if present.value == 1 {
      if |bytes.rest| >= 84 {
        bytes.Advance(84);
        return Ok(());
      }
      return Err(Xdr("truncated NFSACL post_op_attr"));
    }
    return Err(Xdr("invalid NFSACL post_op_attr boolean"));
  }

  /** The whole reply: accepted exactly when it is one, with nothing left over. */
  method DecodeGet(bytes: Reader) returns (r: Result<PosixAcl>)
    modifies bytes
    ensures r.Ok? ==> IsGetReply(old(bytes.rest), r.value) && bytes.rest == []
    ensures r.Err? ==> forall acl :: !IsGetReply(old(bytes.rest), acl)
    ensures |old(bytes.rest)| >= 4 && WordAt(old(bytes.rest)) != 0 ==> r == Err(StatusError(WordAt(old(bytes.rest))))
    ensures r.Err? && |old(bytes.rest)| >= 4 && WordAt(old(bytes.rest)) == 0 ==> r.error.Xdr?
  {
    hide IsLists;
    var status := DecodeStatus(bytes);
    if status.Err? { return Err(status.error); }
    var attrs := SkipAttrs(bytes);
    if attrs.Err? { return Err(attrs.error); }
    var mask := bytes.ReadU32();
    if mask.Err? { return Err(mask.error); }
    WordOfBytes(mask.value, bytes.rest);
    if mask.value != FULL_MASK {
      return Err(Xdr("NFSACL GETACL response does not contain the complete requested ACL mask"));
    }
    r := DecodeLists(bytes);
  }

  method DecodeLists(bytes: Reader) returns (r: Result<PosixAcl>)
    modifies bytes
    ensures r.Ok? ==> IsLists(old(bytes.rest), r.value) && bytes.rest == []
    ensures r.Err? ==> r.error.Xdr? && forall acl :: !IsLists(old(bytes.rest), acl)
  {
    hide Encoded, ValidEntry;
    ghost var start := bytes.rest;
    var access := DecodeAcl(bytes, false);
    if access.Err? { return Err(access.error); }
    ghost var middle := bytes.rest;
    forall acl | IsLists(start, acl) ensures acl.access == access.value && middle == Encoded(acl.defaults, true) {
      EncodedUnique(acl.access, access.value, false, start);
      assert start[|Encoded(acl.access, false)|..] == middle;
    }
    var defaults := DecodeAcl(bytes, true);
    if defaults.Err? { return Err(defaults.error); }
    forall acl | IsLists(start, acl) ensures bytes.rest == [] {
      EncodedUnique(acl.defaults, defaults.value, true, middle);
    }
    if bytes.rest != [] {
      return Err(Xdr("trailing NFSACL response data"));
    }
    return Ok(PosixAcl(access.value, defaults.value));
  }
}
