/** Static ABI tuples: one 32-byte big-endian word per argument, concatenated. */
module Abi {
  import opened Base
  import opened Numerals

  function WordBytes(w: uint256): (bs: seq<byte>)
    ensures |bs| == 32
  {
    BigEndian(w, 32)
  }

  function WordOf(bs: seq<byte>): uint256
    requires |bs| == 32
  {
    BigEndianOfValue(bs);
    WordRange();
    Value(bs)
  }

  lemma WordRoundTrip(w: uint256)
    ensures WordOf(WordBytes(w)) == w
  {
    WordRange();
    ValueOfBigEndian(w, 32);
  }

  lemma BytesRoundTrip(bs: seq<byte>)
    requires |bs| == 32
    ensures WordBytes(WordOf(bs)) == bs
  {
    BigEndianOfValue(bs);
  }

  function Pack(ws: seq<uint256>): (data: seq<byte>)
    ensures |data| == 32 * |ws|
  {
    if ws == [] then [] else WordBytes(ws[0]) + Pack(ws[1..])
  }

  function Words(data: seq<byte>): (ws: seq<uint256>)
    requires |data| % 32 == 0
    ensures |data| == 32 * |ws|
  {
    if data == [] then [] else [WordOf(data[..32])] + Words(data[32..])
  }

  lemma {:induction false} WordsOfPack(ws: seq<uint256>)
    ensures Words(Pack(ws)) == ws
  {
    if ws == [] {
    } else {
      WordRoundTrip(ws[0]);
      WordsOfPack(ws[1..]);
      assert Pack(ws)[..32] == WordBytes(ws[0]);
      assert Pack(ws)[32..] == Pack(ws[1..]);
    }
  }

  lemma {:induction false} PackOfWords(data: seq<byte>)
    requires |data| % 32 == 0
    ensures Pack(Words(data)) == data
  {
    if data == [] {
    } else {
      BytesRoundTrip(data[..32]);
      PackOfWords(data[32..]);
      assert Words(data)[1..] == Words(data[32..]);
      assert data == data[..32] + data[32..];
    }
  }

  /** The i-th word of the data. */
  function WordAt(data: seq<byte>, i: nat): uint256
    requires 32 * i + 32 <= |data|
  {
    WordOf(data[32 * i..32 * i + 32])
  }

  /** Words are laid out one after the other, the first one first. */
  lemma {:induction false} WordsInPlace(data: seq<byte>, i: nat)
    requires |data| % 32 == 0 && i < |Words(data)|
    ensures Words(data)[i] == WordAt(data, i)
  {
    if i == 0 {
    } else {
      WordsInPlace(data[32..], i - 1);
      assert data[32..][32 * (i - 1)..32 * i] == data[32 * i..32 * i + 32];
    }
  }

  lemma {:induction false} PackConcat(a: seq<uint256>, b: seq<uint256>)
    ensures Pack(a + b) == Pack(a) + Pack(b)
  {
    if a == [] {
      assert a + b == b;
    } else {
      PackConcat(a[1..], b);
      assert (a + b)[1..] == a[1..] + b;
    }
  }

  /** Two argument lists with the same packing are the same list. */
  lemma {:induction false} PackInjective(a: seq<uint256>, b: seq<uint256>)
    requires Pack(a) == Pack(b)
    ensures a == b
  {
    WordsOfPack(a);
    WordsOfPack(b);
  }

  function Ascii(s: string): seq<byte> {
    seq(|s|, i requires 0 <= i < |s| => (s[i] as int) % 0x100)
  }

  /** An ASCII string becomes its own character codes. */
  lemma AsciiExact(s: string, i: nat)
    requires i < |s| && s[i] <= '~'
    ensures |Ascii(s)| == |s| && Ascii(s)[i] == s[i] as int
  {}
}
