/** src/nfs3/export.rs: the MOUNT EXPORT list (appendix I of RFC 1813), a list of
    paths that each carry a list of groups, both optional linked lists of XDR
    strings (section 4.10 of RFC 4506).  A string is its UTF-8 bytes. */
module Export {
  import opened Errors
  import opened Xdr

  type Text = seq<Byte>
  datatype ExportEntry = ExportEntry(path: Text, groups: seq<Text>)

  predicate Within(b: Byte, lo: nat, hi: nat) { lo <= b <= hi }

  /** Well-formed UTF-8 (section 4 of RFC 3629). */
  predicate Utf8(t: Text) {
    if t == [] then true
    else if t[0] <= 0x7F then Utf8(t[1..])
    else if Within(t[0], 0xC2, 0xDF) then |t| >= 2 && Within(t[1], 0x80, 0xBF) && Utf8(t[2..])
    else if Within(t[0], 0xE0, 0xEF) then
      && |t| >= 3 && Within(t[2], 0x80, 0xBF)
      && Within(t[1], if t[0] == 0xE0 then 0xA0 else 0x80, if t[0] == 0xED then 0x9F else 0xBF)
      && Utf8(t[3..])
    else if Within(t[0], 0xF0, 0xF4) then
      && |t| >= 4 && Within(t[2], 0x80, 0xBF) && Within(t[3], 0x80, 0xBF)
      && Within(t[1], if t[0] == 0xF0 then 0x90 else 0x80, if t[0] == 0xF4 then 0x8F else 0xBF)
      && Utf8(t[4..])
    else false
  }

  /** A Unicode scalar value: a code point that is not a surrogate. */
  predicate Scalar(c: nat) {
    c <= 0x10FFFF && !(0xD800 <= c <= 0xDFFF)
  }

  /** Section 3 of RFC 3629. */
  function Utf8Bytes(c: nat): (b: Text)
    requires Scalar(c)
    ensures 0 < |b| <= 4
  {
    if c <= 0x7F then [c]
    else if c <= 0x7FF then [0xC0 + c / 0x40, 0x80 + c % 0x40]
    else if c <= 0xFFFF then [0xE0 + c / 0x1000, 0x80 + c / 0x40 % 0x40, 0x80 + c % 0x40]
    else [0xF0 + c / 0x40000, 0x80 + c / 0x1000 % 0x40, 0x80 + c / 0x40 % 0x40, 0x80 + c % 0x40]
  }

  function Utf8Text(scalars: seq<nat>): Text
    requires forall c <- scalars :: Scalar(c)
  {
    if scalars == [] then [] else Utf8Bytes(scalars[0]) + Utf8Text(scalars[1..])
  }

  lemma TwoBytes(hi: nat, lo: nat)
    requires 2 <= hi < 0x20 && lo < 0x40
    ensures var c := hi * 0x40 + lo; Scalar(c) && Utf8Bytes(c) == [0xC0 + hi, 0x80 + lo]
  {
  }

  lemma ThreeBytes(hi: nat, mid: nat, lo: nat)
    requires hi < 0x10 && mid < 0x40 && lo < 0x40 && (hi == 0 ==> 0x20 <= mid) && (hi == 0xD ==> mid < 0x20)
    ensures var c := hi * 0x1000 + mid * 0x40 + lo; Scalar(c) && Utf8Bytes(c) == [0xE0 + hi, 0x80 + mid, 0x80 + lo]
  {
    var c := hi * 0x1000 + mid * 0x40 + lo;
    assert c / 0x40 == hi * 0x40 + mid && c % 0x40 == lo;
    assert c / 0x1000 == hi && (hi * 0x40 + mid) % 0x40 == mid;
  }

  lemma FourBytes(hi: nat, high: nat, mid: nat, lo: nat)
    requires hi <= 4 && high < 0x40 && mid < 0x40 && lo < 0x40
    requires (hi == 0 ==> 0x10 <= high) && (hi == 4 ==> high < 0x10)
    ensures var c := hi * 0x40000 + high * 0x1000 + mid * 0x40 + lo;
      Scalar(c) && Utf8Bytes(c) == [0xF0 + hi, 0x80 + high, 0x80 + mid, 0x80 + lo]
  {
    var c := hi * 0x40000 + high * 0x1000 + mid * 0x40 + lo;
    assert c / 0x40 == hi * 0x1000 + high * 0x40 + mid && c % 0x40 == lo;
    assert c / 0x1000 == hi * 0x40 + high && c / 0x40000 == hi;
    assert (hi * 0x1000 + high * 0x40 + mid) % 0x40 == mid && (hi * 0x40 + high) % 0x40 == high;
  }

  /** The scalar value at the front of well-formed text. */
  lemma FirstScalar(t: Text) returns (c: nat)
    requires Utf8(t) && t != []
    ensures Scalar(c) && |Utf8Bytes(c)| <= |t| && Utf8Bytes(c) == t[..|Utf8Bytes(c)|] && Utf8(t[|Utf8Bytes(c)|..])
  {
    if t[0] <= 0x7F {
      c := t[0];
    } else if t[0] <= 0xDF {
      var hi: nat, lo: nat := t[0] - 0xC0, t[1] - 0x80;
      c := hi * 0x40 + lo;
      TwoBytes(hi, lo);
    } else if t[0] <= 0xEF {
      var hi: nat, mid: nat, lo: nat := t[0] - 0xE0, t[1] - 0x80, t[2] - 0x80;
      c := hi * 0x1000 + mid * 0x40 + lo;
      ThreeBytes(hi, mid, lo);
    } else {
      var hi: nat, high: nat, mid: nat, lo: nat := t[0] - 0xF0, t[1] - 0x80, t[2] - 0x80, t[3] - 0x80;
      c := hi * 0x40000 + high * 0x1000 + mid * 0x40 + lo;
      FourBytes(hi, high, mid, lo);
    }
  }

  lemma ThreeFirst(c: nat, rest: Text)
    requires Scalar(c) && 0x800 <= c <= 0xFFFF
    ensures Utf8(Utf8Bytes(c) + rest) <==> Utf8(rest)
  {
    var t := Utf8Bytes(c) + rest;
    assert t[3..] == rest;
    assert c / 0x1000 == 0xD ==> c / 0x40 % 0x40 < 0x20;
    assert c / 0x1000 == 0 ==> 0x20 <= c / 0x40 % 0x40;
  }

  lemma FourFirst(c: nat, rest: Text)
    requires Scalar(c) && 0x10000 <= c
    ensures Utf8(Utf8Bytes(c) + rest) <==> Utf8(rest)
  {
    var t := Utf8Bytes(c) + rest;
    assert t[4..] == rest;
    assert c / 0x40000 == 4 ==> c / 0x1000 % 0x40 < 0x10;
    assert c / 0x40000 == 0 ==> 0x10 <= c / 0x1000 % 0x40;
  }

  lemma FewFirst(c: nat, rest: Text)
    requires c <= 0x7FF
    ensures Utf8(Utf8Bytes(c) + rest) <==> Utf8(rest)
  {
    var t := Utf8Bytes(c) + rest;
    assert t[|Utf8Bytes(c)|..] == rest;
  }

  lemma ScalarFirst(c: nat, rest: Text)
    requires Scalar(c)
    ensures Utf8(Utf8Bytes(c) + rest) <==> Utf8(rest)
  {
    hide Utf8, Utf8Bytes;
    if c <= 0x7FF { FewFirst(c, rest); } else if c <= 0xFFFF { ThreeFirst(c, rest); } else { FourFirst(c, rest); }
  }

  lemma {:induction false} TextIsUtf8(scalars: seq<nat>)
    requires forall c <- scalars :: Scalar(c)
    ensures Utf8(Utf8Text(scalars))
  {
    if scalars != [] {
      TextIsUtf8(scalars[1..]);
      ScalarFirst(scalars[0], Utf8Text(scalars[1..]));
    }
  }

  lemma {:induction false} Utf8IsText(t: Text) returns (scalars: seq<nat>)
    requires Utf8(t)
    ensures (forall c <- scalars :: Scalar(c)) && Utf8Text(scalars) == t
    decreases |t|
  {
    hide Utf8, Utf8Bytes;
    scalars := [];
    if t != [] {
      var c := FirstScalar(t);
      var rest := Utf8IsText(t[|Utf8Bytes(c)|..]);
      scalars := [c] + rest;
      assert scalars[1..] == rest;
    }
  }

  /** The test accepts exactly the encodings of sequences of scalar values. */
  lemma Utf8Exactly(t: Text)
    ensures Utf8(t) <==> exists scalars: seq<nat> :: (forall c <- scalars :: Scalar(c)) && Utf8Text(scalars) == t
  {
    if Utf8(t) {
      var scalars := Utf8IsText(t);
    } else {
      forall scalars: seq<nat> | forall c <- scalars :: Scalar(c) ensures Utf8Text(scalars) != t {
        TextIsUtf8(scalars);
      }
    }
  }

  function Pad(n: nat): (p: nat)
    ensures p < 4
  {
    (4 - n % 4) % 4
  }

  /** Padding brings a string to a multiple of four bytes. */
  lemma PadAligns(n: nat)
    ensures (n + Pad(n)) % 4 == 0
  {
    if n % 4 != 0 { assert n + Pad(n) == n / 4 * 4 + 4; }
  }

  function Zeros(n: nat): (z: seq<Byte>)
    ensures |z| == n
  {
    seq(n, _ => 0)
  }

  // The printer.

  function PrintString(t: Text): (b: seq<Byte>)
    ensures |b| == 4 + |t| + Pad(|t|)
  {
    WordBytes(|t| % TWO_TO_THE_32) + (t + Zeros(Pad(|t|)))
  }

  function PrintGroups(groups: seq<Text>): seq<Byte> {
    if groups == [] then WordBytes(0)
    else WordBytes(1) + (PrintString(groups[0]) + PrintGroups(groups[1..]))
  }

  function PrintExports(entries: seq<ExportEntry>): seq<Byte> {
    if entries == [] then WordBytes(0)
    else WordBytes(1) + (PrintString(entries[0].path) + (PrintGroups(entries[0].groups) + PrintExports(entries[1..])))
  }

  // What the decoder reads.

  datatype Parsed<T> = Failed | Parsed(value: T, rest: seq<Byte>)

  function ParseString(b: seq<Byte>): (p: Parsed<Text>)
    ensures p.Parsed? ==> |p.rest| + 4 <= |b|
  {
    if |b| < 4 then Failed
    else
      var len := WordAt(b);
      var data := b[4..];
      if |data| < len + Pad(len) || !Utf8(data[..len]) then Failed
      else Parsed(data[..len], data[len + Pad(len)..])
  }

  function ParseGroups(b: seq<Byte>): (p: Parsed<seq<Text>>)
    ensures p.Parsed? ==> |p.rest| + 4 <= |b|
    decreases |b|
  {
    if |b| < 4 then Failed
    else if WordAt(b) == 0 then Parsed([], b[4..])
    else
      var head := ParseString(b[4..]);
      if head.Failed? then Failed
      else
        var tail := ParseGroups(head.rest);
        if tail.Failed? then Failed else Parsed([head.value] + tail.value, tail.rest)
  }

  function ParseEntry(b: seq<Byte>): (p: Parsed<ExportEntry>)
    ensures p.Parsed? ==> |p.rest| < |b|
  {
    var path := ParseString(b);
    if path.Failed? then Failed
    else
      var groups := ParseGroups(path.rest);
      if groups.Failed? then Failed else Parsed(ExportEntry(path.value, groups.value), groups.rest)
  }

  function ParseExports(b: seq<Byte>): (p: Parsed<seq<ExportEntry>>)
    decreases |b|
  {
    if |b| < 4 then Failed
    else if WordAt(b) == 0 then Parsed([], b[4..])
    else
      var head := ParseEntry(b[4..]);
      if head.Failed? then Failed
      else
        var tail := ParseExports(head.rest);
        if tail.Failed? then Failed else Parsed([head.value] + tail.value, tail.rest)
  }

  // The decoder consumes its cursor; every turn of either loop consumes bytes.

  ghost predicate Agrees<T>(r: Result<T>, rest: seq<Byte>, p: Parsed<T>) {
    (r.Ok? <==> p.Parsed?) && (r.Ok? ==> r.value == p.value && rest == p.rest)
  }

  method DecodeXdrString(bytes: Reader) returns (r: Result<Text>)
    modifies bytes
    ensures Agrees(r, bytes.rest, ParseString(old(bytes.rest)))
    ensures |bytes.rest| <= |old(bytes.rest)|
  {
    hide Utf8, WordAt;
    if |bytes.rest| < 4 {
      return Err(Xdr("response truncated (string length)"));
    }
    var len := WordAt(bytes.rest);
    bytes.Advance(4);
    var pad := Pad(len);
    if |bytes.rest| < len + pad {
      return Err(Xdr("response truncated (string data)"));
    }
    var s := bytes.rest[..len];
    if !Utf8(s) {
      return Err(Xdr("invalid UTF-8"));
    }
    bytes.Advance(len + pad);
    return Ok(s);
  }

  function Before<T>(head: seq<T>, p: Parsed<seq<T>>): Parsed<seq<T>> {
    if p.Failed? then Failed else Parsed(head + p.value, p.rest)
  }

  method DecodeGroups(bytes: Reader) returns (r: Result<seq<Text>>)
    modifies bytes
    ensures Agrees(r, bytes.rest, ParseGroups(old(bytes.rest)))
    ensures |bytes.rest| <= |old(bytes.rest)|
  {
    hide ParseString;
    var groups: seq<Text> := [];
    ghost var all := ParseGroups(bytes.rest);
    assert all.Parsed? ==> [] + all.value == all.value;
    while true
      invariant all == Before(groups, ParseGroups(bytes.rest))
      invariant |bytes.rest| <= |old(bytes.rest)|
      decreases |bytes.rest|
    {
      if |bytes.rest| < 4 {
        return Err(Xdr("response truncated (group opt)"));
      }
      ghost var here := bytes.rest;
      var more := WordAt(bytes.rest);
      bytes.Advance(4);
      if more == 0 {
        assert groups + [] == groups;
        return Ok(groups);
      }
      var name := DecodeXdrString(bytes);
      if name.Err? {
        return Err(name.error);
      }
      GroupStep(groups, here, name.value, bytes.rest);
      groups := groups + [name.value];
    }
  }

  lemma GroupStep(groups: seq<Text>, here: seq<Byte>, name: Text, rest: seq<Byte>)
    requires |here| >= 4 && WordAt(here) != 0 && ParseString(here[4..]) == Parsed(name, rest)
    ensures Before(groups, ParseGroups(here)) == Before(groups + [name], ParseGroups(rest))
  {
    hide ParseString, WordAt;
    var tail := ParseGroups(rest);
    if tail.Parsed? {
      assert groups + ([name] + tail.value) == groups + [name] + tail.value;
    }
  }

  method DecodeExports(bytes: Reader) returns (r: Result<seq<ExportEntry>>)
    modifies bytes
    ensures Agrees(r, bytes.rest, ParseExports(old(bytes.rest)))
  {
    hide ParseString, ParseGroups;
    var result: seq<ExportEntry> := [];
    ghost var all := ParseExports(bytes.rest);
    assert all.Parsed? ==> [] + all.value == all.value;
    while true
      invariant all == Before(result, ParseExports(bytes.rest))
      decreases |bytes.rest|
    {
      if |bytes.rest| < 4 {
        return Err(Xdr("response truncated (export opt)"));
      }
      ghost var here := bytes.rest;
      var more := WordAt(bytes.rest);
      bytes.Advance(4);
      if more == 0 {
        assert result + [] == result;
        return Ok(result);
      }
      var path := DecodeXdrString(bytes);
      if path.Err? {
        return Err(path.error);
      }
      var groups := DecodeGroups(bytes);
      if groups.Err? {
        return Err(groups.error);
      }
      var entry := ExportEntry(path.value, groups.value);
      EntryStep(result, here, entry, bytes.rest);
      result := result + [entry];
    }
  }

  lemma EntryStep(result: seq<ExportEntry>, here: seq<Byte>, entry: ExportEntry, rest: seq<Byte>)
    requires |here| >= 4 && WordAt(here) != 0 && ParseEntry(here[4..]) == Parsed(entry, rest)
    ensures Before(result, ParseExports(here)) == Before(result + [entry], ParseExports(rest))
  {
    hide ParseEntry;
    var tail := ParseExports(rest);
    if tail.Parsed? {
      assert result + ([entry] + tail.value) == result + [entry] + tail.value;
    }
  }

  // Round trip.

  predicate Utf8Entry(e: ExportEntry) {
    Utf8(e.path) && forall g <- e.groups :: Utf8(g)
  }

  predicate SmallEntry(e: ExportEntry) {
    |e.path| < TWO_TO_THE_32 && forall g <- e.groups :: |g| < TWO_TO_THE_32
  }

  lemma PrintSmall(t: Text)
    requires |t| < TWO_TO_THE_32
    ensures PrintString(t) == WordBytes(|t|) + (t + Zeros(Pad(|t|)))
  {
    hide WordBytes, Zeros, Pad;
    SmallLength(|t|);
  }

  lemma SmallLength(n: nat)
    requires n < TWO_TO_THE_32
    ensures n % TWO_TO_THE_32 == n
  {
  }

  lemma ParseParts(b: seq<Byte>, t: Text, z: seq<Byte>, tail: seq<Byte>)
    requires |b| >= 4 && WordAt(b) == |t| && b[4..] == t + z + tail && |z| == Pad(|t|) && Utf8(t)
    ensures ParseString(b) == Parsed(t, tail)
  {
    hide Utf8, WordAt, Pad;
    var data := b[4..];
    assert data[..|t|] == t;
    assert data[|t| + |z|..] == tail;
  }

  lemma StringRoundTrip(t: Text, tail: seq<Byte>)
    requires Utf8(t) && |t| < TWO_TO_THE_32
    ensures ParseString(PrintString(t) + tail) == Parsed(t, tail)
  {
    hide Utf8, WordBytes, WordAt, Zeros, Pad, PrintString, ParseString;
    var z := Zeros(Pad(|t|));
    PrintSmall(t);
    var b := PrintString(t) + tail;
    assert b == WordBytes(|t|) + (t + z + tail);
    WordOfBytes(|t|, t + z + tail);
    ParseParts(b, t, z, tail);
  }

  lemma {:induction false} GroupsRoundTrip(groups: seq<Text>, tail: seq<Byte>)
    requires forall g <- groups :: Utf8(g) && |g| < TWO_TO_THE_32
    ensures ParseGroups(PrintGroups(groups) + tail) == Parsed(groups, tail)
  {
    hide ParseString, PrintString, WordAt, WordBytes, Utf8;
    if groups == [] {
      WordOfBytes(0, tail);
    } else {
      var rest := PrintGroups(groups[1..]) + tail;
      assert PrintGroups(groups) + tail == WordBytes(1) + (PrintString(groups[0]) + rest);
      WordOfBytes(1, PrintString(groups[0]) + rest);
      StringRoundTrip(groups[0], rest);
      GroupsRoundTrip(groups[1..], tail);
      assert [groups[0]] + groups[1..] == groups;
    }
  }

  lemma {:induction false} ExportsRoundTrip(entries: seq<ExportEntry>, tail: seq<Byte>)
    requires forall e <- entries :: Utf8Entry(e) && SmallEntry(e)
    ensures ParseExports(PrintExports(entries) + tail) == Parsed(entries, tail)
  {
    hide ParseString, PrintString, ParseGroups, PrintGroups, WordAt, WordBytes, Utf8;
    if entries == [] {
      WordOfBytes(0, tail);
    } else {
      var e := entries[0];
      assert e in entries;
      var rest := PrintExports(entries[1..]) + tail;
      var afterPath := PrintGroups(e.groups) + rest;
      assert PrintExports(entries) + tail == WordBytes(1) + (PrintString(e.path) + afterPath);
      WordOfBytes(1, PrintString(e.path) + afterPath);
      StringRoundTrip(e.path, afterPath);
      GroupsRoundTrip(e.groups, rest);
      ExportsRoundTrip(entries[1..], tail);
      assert ParseEntry(PrintString(e.path) + afterPath) == Parsed(e, rest);
      assert [e] + entries[1..] == entries;
    }
  }

  lemma ParsedStringIsSmall(b: seq<Byte>)
    requires ParseString(b).Parsed?
    ensures |ParseString(b).value| < TWO_TO_THE_32 && Utf8(ParseString(b).value)
  {
    hide Utf8;
  }

  lemma {:induction false} ParsedGroupsAreSmall(b: seq<Byte>)
    requires ParseGroups(b).Parsed?
    ensures forall g <- ParseGroups(b).value :: |g| < TWO_TO_THE_32 && Utf8(g)
    decreases |b|
  {
    hide Utf8, ParseString, WordAt;
    if WordAt(b) != 0 {
      ParsedStringIsSmall(b[4..]);
      ParsedGroupsAreSmall(ParseString(b[4..]).rest);
    }
  }

  lemma {:induction false} ParsedEntriesAreSmall(b: seq<Byte>)
    ensures ParseExports(b).Parsed? ==> forall e <- ParseExports(b).value :: SmallEntry(e) && Utf8Entry(e)
    decreases |b|
  {
    hide Utf8, ParseString, ParseGroups, WordAt;
    if ParseExports(b).Parsed? && WordAt(b) != 0 {
      ParsedStringIsSmall(b[4..]);
      ParsedGroupsAreSmall(ParseString(b[4..]).rest);
      ParsedEntriesAreSmall(ParseEntry(b[4..]).rest);
    }
  }

  /** The printed list comes back, with all of its bytes consumed and none of what
      follows, if and only if no string is 2^32 bytes or longer: the printer cuts a
      length to 32 bits. */
  lemma RoundTripExactly(entries: seq<ExportEntry>, tail: seq<Byte>)
    requires forall e <- entries :: Utf8Entry(e)
    ensures ParseExports(PrintExports(entries) + tail) == Parsed(entries, tail) <==>
      forall e <- entries :: SmallEntry(e)
  {
    hide Utf8Entry, SmallEntry, PrintExports;
    if forall e <- entries :: SmallEntry(e) {
      ExportsRoundTrip(entries, tail);
    } else if ParseExports(PrintExports(entries) + tail) == Parsed(entries, tail) {
      ParsedEntriesAreSmall(PrintExports(entries) + tail);
    }
  }

  // What other bytes the decoder accepts.

  ghost predicate CanonicalString(b: seq<Byte>)
    requires ParseString(b).Parsed?
  {
    var len := WordAt(b);
    b[4 + len..4 + len + Pad(len)] == Zeros(Pad(len))
  }

  ghost predicate CanonicalGroups(b: seq<Byte>)
    requires ParseGroups(b).Parsed?
    decreases |b|
  {
    WordAt(b) != 0 ==> WordAt(b) == 1 && CanonicalString(b[4..]) && CanonicalGroups(ParseString(b[4..]).rest)
  }

  /** Every flag is 0 or 1 and every padding byte is zero. */
  ghost predicate CanonicalExports(b: seq<Byte>)
    decreases |b|
  {
    ParseExports(b).Parsed? && (WordAt(b) != 0 ==>
      && WordAt(b) == 1 && CanonicalString(b[4..]) && CanonicalGroups(ParseString(b[4..]).rest)
      && CanonicalExports(ParseEntry(b[4..]).rest))
  }

  lemma StringReprint(b: seq<Byte>)
    requires ParseString(b).Parsed?
    ensures var t, k := ParseString(b).value, |PrintString(ParseString(b).value)|;
      k <= |b| && ParseString(b).rest == b[k..] && (b[..k] == PrintString(t) <==> CanonicalString(b))
  {
    hide Utf8, WordBytes, WordAt, Zeros, Pad;
    var len := WordAt(b);
    var t := ParseString(b).value;
    var k := 4 + len + Pad(len);
    BytesOfWord(b);
    var padding := b[4 + len..k];
    assert b[..k] == b[..4] + (t + padding);
    if t + padding == t + Zeros(Pad(len)) {
      assert (t + padding)[len..] == padding && (t + Zeros(Pad(len)))[len..] == Zeros(Pad(len));
    }
    if b[..k] == PrintString(t) {
      assert b[..k][4..] == t + padding && PrintString(t)[4..] == t + Zeros(Pad(len));
    }
  }

  lemma FlagReprint(b: seq<Byte>, x: seq<Byte>)
    requires |b| >= 4
    ensures b == WordBytes(1) + x <==> WordAt(b) == 1 && b[4..] == x
  {
    BytesOfWord(b);
    WordOfBytes(1, x);
  }

  lemma SplitEqual(b: seq<Byte>, x: seq<Byte>, y: seq<Byte>)
    requires |x| <= |b|
    ensures b == x + y <==> b[..|x|] == x && b[|x|..] == y
  {
    assert b == b[..|x|] + b[|x|..];
    assert (x + y)[..|x|] == x && (x + y)[|x|..] == y;
  }

  lemma ItemReprint(b: seq<Byte>, h: seq<Byte>, y: seq<Byte>)
    requires 4 + |h| + |y| <= |b|
    ensures b[..4 + |h| + |y|] == WordBytes(1) + (h + y) <==>
      WordAt(b) == 1 && b[4..][..|h|] == h && b[4..][|h|..][..|y|] == y
  {
    hide WordAt, WordBytes;
    var here := b[..4 + |h| + |y|];
    assert here[4..][..|h|] == b[4..][..|h|] && here[4..][|h|..] == b[4..][|h|..][..|y|];
    WordPrefix(b, |here|);
    FlagReprint(here, h + y);
    SplitEqual(here[4..], h, y);
  }

  lemma {:induction false} GroupsReprint(b: seq<Byte>)
    requires ParseGroups(b).Parsed?
    ensures var p, k := ParseGroups(b), |PrintGroups(ParseGroups(b).value)|;
      k <= |b| && p.rest == b[k..] && (b[..k] == PrintGroups(p.value) <==> CanonicalGroups(b))
    decreases |b|
  {
    hide ParseString, PrintString, CanonicalString, WordAt, WordBytes;
    if WordAt(b) == 0 {
      BytesOfWord(b);
    } else {
      var head := ParseString(b[4..]);
      var tail := ParseGroups(head.rest);
      StringReprint(b[4..]);
      GroupsReprint(head.rest);
      assert [head.value] + tail.value == ParseGroups(b).value && ([head.value] + tail.value)[1..] == tail.value;
      var h, g := PrintString(head.value), PrintGroups(tail.value);
      assert PrintGroups(ParseGroups(b).value) == WordBytes(1) + (h + g);
      ItemReprint(b, h, g);
    }
  }

  lemma WordPrefix(b: seq<Byte>, n: nat)
    requires 4 <= n <= |b|
    ensures WordAt(b[..n]) == WordAt(b)
  {
  }

  lemma PairReprint(b: seq<Byte>, g: seq<Byte>, x: seq<Byte>)
    requires |g| + |x| <= |b|
    ensures b[..|g + x|] == g + x <==> b[..|g|] == g && b[|g|..][..|x|] == x
  {
    var here := b[..|g + x|];
    assert here[..|g|] == b[..|g|] && here[|g|..] == b[|g|..][..|x|];
    SplitEqual(here, g, x);
  }

  lemma PrintFirst(entry: ExportEntry, rest: seq<ExportEntry>)
    ensures PrintExports([entry] + rest) ==
      WordBytes(1) + (PrintString(entry.path) + (PrintGroups(entry.groups) + PrintExports(rest)))
  {
    hide PrintString, PrintGroups, WordBytes;
    assert ([entry] + rest)[1..] == rest;
  }

  /** The decoder consumes exactly as many bytes as printing its result takes, and
      they are the printed bytes if and only if they are canonical. */
  lemma {:induction false} ReprintExactly(b: seq<Byte>)
    ensures ParseExports(b).Parsed? ==>
      var p, k := ParseExports(b), |PrintExports(ParseExports(b).value)|;
      k <= |b| && p.rest == b[k..] && (b[..k] == PrintExports(p.value) <==> CanonicalExports(b))
    decreases |b|
  {
    hide ParseString, PrintString, CanonicalString, ParseGroups, PrintGroups, CanonicalGroups, WordAt, WordBytes;
    if ParseExports(b).Failed? {
    } else if WordAt(b) == 0 {
      BytesOfWord(b);
    } else {
      var path := ParseString(b[4..]);
      var groups := ParseGroups(path.rest);
      var tail := ParseExports(groups.rest);
      StringReprint(b[4..]);
      GroupsReprint(path.rest);
      ReprintExactly(groups.rest);
      var entry := ExportEntry(path.value, groups.value);
      var h, g, x := PrintString(path.value), PrintGroups(groups.value), PrintExports(tail.value);
      PrintFirst(entry, tail.value);
      assert ParseExports(b).value == [entry] + tail.value;
      ItemReprint(b, h, g + x);
      PairReprint(path.rest, g, x);
    }
  }

  lemma PrintFlag(entries: seq<ExportEntry>)
    requires entries != []
    ensures |PrintExports(entries)| >= 4 && PrintExports(entries) == WordBytes(1) + PrintExports(entries)[4..]
  {
    hide PrintString, PrintGroups, WordBytes;
  }

  /** Not every accepted reply is the printed one: any non-zero flag continues a
      list. */
  lemma FlagIgnored(entries: seq<ExportEntry>, flag: Word, tail: seq<Byte>)
    requires entries != [] && flag != 0 && forall e <- entries :: Utf8Entry(e) && SmallEntry(e)
    ensures ParseExports(WordBytes(flag) + (PrintExports(entries)[4..] + tail)) == Parsed(entries, tail)
    ensures flag != 1 ==> WordBytes(flag) + (PrintExports(entries)[4..] + tail) != PrintExports(entries) + tail
  {
    hide Utf8Entry, SmallEntry, ParseEntry, WordAt, WordBytes, PrintExports;
    ExportsRoundTrip(entries, tail);
    PrintFlag(entries);
    var body := PrintExports(entries)[4..] + tail;
    assert PrintExports(entries) + tail == WordBytes(1) + body;
    WordOfBytes(1, body);
    WordOfBytes(flag, body);
  }
}
