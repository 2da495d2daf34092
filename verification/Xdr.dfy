/** Big-endian words and the byte cursor the XDR decoders consume (RFC 4506). */
module Xdr {
  import opened Errors
  import Storage = StableStorage

  type Byte = Storage.Byte
  const TWO_TO_THE_32: nat := 0x1_0000_0000
  type Word = n: nat | n < TWO_TO_THE_32

  function WordBytes(w: Word): (b: seq<Byte>)
    ensures |b| == 4
  {
    [w / 0x100_0000, w / 0x1_0000 % 256, w / 256 % 256, w % 256]
  }

  function WordAt(b: seq<Byte>): (w: Word)
    requires |b| >= 4
  {
    b[0] as int * 0x100_0000 + b[1] as int * 0x1_0000 + b[2] as int * 256 + b[3] as int
  }

  lemma WordOfBytes(w: Word, tail: seq<Byte>)
    ensures WordAt(WordBytes(w) + tail) == w && (WordBytes(w) + tail)[4..] == tail
  {
    var b := WordBytes(w) + tail;
    assert b[0] == w / 0x100_0000 && b[1] == w / 0x1_0000 % 256 && b[2] == w / 256 % 256 && b[3] == w % 256;
    assert w / 0x1_0000 == w / 0x100_0000 * 256 + w / 0x1_0000 % 256;
    assert w / 256 == w / 0x1_0000 * 256 + w / 256 % 256;
  }

  lemma BytesOfWord(b: seq<Byte>)
    requires |b| >= 4
    ensures WordBytes(WordAt(b)) == b[..4] && WordBytes(WordAt(b)) + b[4..] == b
  {
    var w := WordAt(b);
    assert w / 256 == b[0] as int * 0x1_0000 + b[1] as int * 256 + b[2] as int;
    assert w / 0x1_0000 == b[0] as int * 256 + b[1] as int;
  }

  /** What is left of a reply. */
  class Reader {
    var rest: seq<Byte>

    constructor (bytes: seq<Byte>)
      ensures rest == bytes
    {
      rest := bytes;
    }

    method ReadU32() returns (r: Result<Word>)
      modifies this
      ensures r.Ok? <==> |old(rest)| >= 4
      ensures r.Ok? ==> old(rest) == WordBytes(r.value) + rest
      ensures r.Err? ==> r.error.Xdr? && rest == old(rest)
    {
      if |rest| < 4 {
        return Err(Xdr("truncated response"));
      }
      BytesOfWord(rest);
      r := Ok(WordAt(rest));
      rest := rest[4..];
    }

    method Advance(n: nat)
      requires n <= |rest|
      modifies this
      ensures old(rest) == old(rest)[..n] + rest && rest == old(rest)[n..]
    {
      rest := rest[n..];
    }
  }
}
