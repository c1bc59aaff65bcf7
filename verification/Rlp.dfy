/** Recursive length prefix encoding, after Appendix B of the Ethereum Yellow Paper. */
module Rlp {
  import opened Seqs
  import opened Schema

  datatype Rlp = Str(bytes: Bytes) | List(items: seq<Rlp>)

  /** Big-endian, without leading zeros. */
  function BigEndian(n: nat): Bytes {
    if n == 0 then [] else BigEndian(n / 256) + [n % 256]
  }

  function FromBigEndian(bytes: Bytes): nat {
    if bytes == [] then 0 else FromBigEndian(bytes[..|bytes| - 1]) * 256 + bytes[|bytes| - 1]
  }

  lemma {:induction false} BigEndianInverts(n: nat)
    ensures FromBigEndian(BigEndian(n)) == n
    ensures n > 0 ==> BigEndian(n) != [] && BigEndian(n)[0] != 0
  {
    if n > 0 {
      BigEndianInverts(n / 256);
      assert BigEndian(n)[..|BigEndian(n)| - 1] == BigEndian(n / 256);
    }
  }

  /** Without a leading zero, the bytes are the only ones for their value. */
  lemma {:induction false} BigEndianUnique(bytes: Bytes)
    requires bytes != [] ==> bytes[0] != 0
    ensures BigEndian(FromBigEndian(bytes)) == bytes
    ensures bytes != [] ==> FromBigEndian(bytes) > 0
  {
    if bytes != [] {
      var init, last := bytes[..|bytes| - 1], bytes[|bytes| - 1];
      BigEndianUnique(init);
      assert FromBigEndian(bytes) == FromBigEndian(init) * 256 + last;
      assert bytes == init + [last];
    }
  }

  /** The prefix of a string (0x80) or a list (0xc0) whose payload has n bytes; none beyond 8 bytes of length. */
  function Prefix(off: Byte, n: nat): Option<Bytes>
    requires off == 0x80 || off == 0xc0
  {
    if n < 56 then Some([off + n])
    else if |BigEndian(n)| <= 8 then Some([off + 55 + |BigEndian(n)|] + BigEndian(n))
    else None
  }

  function Encode(x: Rlp): Option<Bytes>
    decreases x, if x.List? then |x.items| + 1 else 0
  {
    match x
    case Str(b) =>
      if |b| == 1 && b[0] < 0x80 then Some(b) else
        var p :- Prefix(0x80, |b|);
        Some(p + b)
    case List(items) =>
      var encs :- EncodeItems(x, |items|);
      var p :- Prefix(0xc0, |Flatten(encs)|);
      Some(p + Flatten(encs))
  }

  /** The encodings of the first n items of a list. */
  function EncodeItems(x: Rlp, n: nat): (r: Option<seq<Bytes>>)
    requires x.List? && n <= |x.items|
    ensures r.Some? ==> |r.value| == n
    decreases x, n
  {
    if n == 0 then Some([]) else
      var before :- EncodeItems(x, n - 1);
      var item :- Encode(x.items[n - 1]);
      Some(before + [item])
  }

  lemma {:induction false} ItemsEncoded(x: Rlp, n: nat, i: nat)
    requires x.List? && i < n <= |x.items| && EncodeItems(x, n).Some?
    ensures Encode(x.items[i]) == Some(EncodeItems(x, n).value[i])
  {
    if i < n - 1 {
      ItemsEncoded(x, n - 1, i);
    }
  }

  /** The first byte tells lists from strings. */
  lemma FirstByte(x: Rlp)
    requires Encode(x).Some?
    ensures Encode(x).value != [] && (x.List? <==> Encode(x).value[0] >= 0xc0)
  {
  }
}
