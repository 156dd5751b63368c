/** The Internet checksum of the ping gate (wait-until-pingable.py, `checksum`,
    a port of BSD ping's in_cksum; section 1 of RFC 1071). */
module InetChecksum {

  type byte = x: int | 0 <= x < 256

  /** `sys.byteorder` of the host running the tool. */
  datatype ByteOrder = Little | Big

  /** The 16-bit value the loop reads from the bytes a, b found at an even offset. */
  function PairWord(order: ByteOrder, a: byte, b: byte): (w: nat)
    ensures w < 0x10000
  {
    match order
    case Little => b * 256 + a
    case Big => a * 256 + b
  }

  /** Sum of the words over the longest even-length prefix of s. */
  function PairSum(order: ByteOrder, s: seq<byte>): nat
  {
    if |s| < 2 then 0 else PairWord(order, s[0], s[1]) + PairSum(order, s[2..])
  }

  /** The sum the code forms: an odd trailing byte is added as a plain byte value,
      whatever the host's byte order. */
  function RawSum(order: ByteOrder, s: seq<byte>): nat
  {
    PairSum(order, s) + (if |s| % 2 == 1 then s[|s| - 1] else 0)
  }

  /** The sum RFC 1071 prescribes: an odd trailing byte is padded on its right with
      a zero byte, i.e. read as the word (b, 0) in the host's order. */
  function RfcSum(order: ByteOrder, s: seq<byte>): nat
  {
    PairSum(order, s) + (if |s| % 2 == 1 then PairWord(order, s[|s| - 1], 0) else 0)
  }

  /** `sum &= 0xffffffff`, then the high half added to the low half twice (the
      end-around carry), kept to its low 16 bits as `~sum & 0xffff` sees it. */
  function Fold(sum: nat): nat
  {
    var t := sum % 0x1_0000_0000;
    var u := t / 0x10000 + t % 0x10000;
    (u + u / 0x10000) % 0x10000
  }

  /** `socket.htons`: swaps the two bytes of a 16-bit value on a little-endian host. */
  function Htons(order: ByteOrder, x: nat): (y: nat)
    requires x < 0x10000
    ensures y < 0x10000
  {
    match order
    case Little => (x % 256) * 256 + x / 256
    case Big => x
  }

  /** `checksum(s)` as written: the complemented fold, put in network order. */
  function Checksum(order: ByteOrder, s: seq<byte>): (c: nat)
    ensures c < 0x10000
  {
    Htons(order, 0xffff - Fold(RawSum(order, s)))
  }

  /** The checksum with RFC 1071's treatment of an odd trailing byte. */
  function RfcChecksum(order: ByteOrder, s: seq<byte>): (c: nat)
    ensures c < 0x10000
  {
    Htons(order, 0xffff - Fold(RfcSum(order, s)))
  }

  /** The pair loop of `checksum`: each two bytes at an even offset read as one word
      in the host's order (`hiByte * 256 + loByte`) and added up. */
  method SumPairs(order: ByteOrder, source: seq<byte>) returns (sum: nat)
    ensures sum == PairSum(order, source)
  {
    var countTo := (|source| / 2) * 2;
    sum := 0;
    var count := 0;
    while count < countTo
      invariant 0 <= count <= countTo && count % 2 == 0
      invariant sum + PairSum(order, source[count..]) == PairSum(order, source)
    {
      var loByte: int, hiByte: int;
      if order == Little {
        loByte, hiByte := source[count], source[count + 1];
      } else {
        loByte, hiByte := source[count + 1], source[count];
      }
      assert source[count..][2..] == source[count + 2..];
      assert hiByte * 256 + loByte == PairWord(order, source[count], source[count + 1]);
      sum := sum + (hiByte * 256 + loByte);
      count := count + 2;
    }
    assert |source[count..]| < 2;
  }

  /** The tail of `checksum`: the sum truncated to 32 bits, folded twice, complemented
      and byte-swapped. */
  method FoldSum(order: ByteOrder, sum: nat) returns (answer: nat)
    ensures answer == Htons(order, 0xffff - Fold(sum))
  {
    var t := sum % 0x1_0000_0000;
    var u := t / 0x10000 + t % 0x10000;
    var v := u + u / 0x10000;
    FoldSteps(sum, t, u, v);
    answer := 0xffff - v % 0x10000;
    answer := Htons(order, answer);
  }

  /** `checksum(source)` as written: the pair loop, then an odd trailing byte added as
      a plain value (`sum += loByte`) on every host, then the fold.  This is the RFC
      1071 checksum whenever the odd byte does not arise or the host is little-endian. */
  method ComputeChecksum(order: ByteOrder, source: seq<byte>) returns (answer: nat)
    ensures answer == Checksum(order, source)
    ensures order == Little || |source| % 2 == 0 ==> answer == RfcChecksum(order, source)
  {
    var sum := SumPairs(order, source);
    if |source| % 2 == 1 {
      var loByte: int := source[|source| - 1];
      sum := sum + loByte;
    }
    answer := FoldSum(order, sum);
    if order == Little || |source| % 2 == 0 {
      RfcAgrees(order, source);
    }
  }

  /** The checksum with the odd trailing byte padded on its right with a zero byte, as
      RFC 1071 prescribes: the byte is the high half of the last word on a big-endian
      host and the low half on a little-endian one. */
  method ComputeRfcChecksum(order: ByteOrder, source: seq<byte>) returns (answer: nat)
    ensures answer == RfcChecksum(order, source)
  {
    var sum := SumPairs(order, source);
    if |source| % 2 == 1 {
      if order == Little {
        sum := sum + source[|source| - 1];
      } else {
        sum := sum + (source[|source| - 1] as int) * 256;
      }
    }
    answer := FoldSum(order, sum);
  }

  /** The three statements of the fold compute `Fold`. */
  lemma FoldSteps(raw: nat, truncated: nat, folded: nat, carried: nat)
    requires truncated == raw % 0x1_0000_0000
    requires folded == truncated / 0x10000 + truncated % 0x10000
    requires carried == folded + folded / 0x10000
    ensures carried % 0x10000 == Fold(raw)
  {
  }

  /** Appending a byte pair to an even-length input adds its word to the sum;
      appending one byte adds nothing to the pair sum. */
  lemma {:induction false} PairSumAppend(order: ByteOrder, s: seq<byte>, a: byte, b: byte)
    requires |s| % 2 == 0
    ensures PairSum(order, s + [a, b]) == PairSum(order, s) + PairWord(order, a, b)
    ensures PairSum(order, s + [a]) == PairSum(order, s)
  {
    if |s| >= 2 {
      assert (s + [a, b])[2..] == s[2..] + [a, b];
      assert (s + [a])[2..] == s[2..] + [a];
      PairSumAppend(order, s[2..], a, b);
    }
  }

  /** On a little-endian host an odd trailing byte b counts as if the input had been
      padded to `[b, 0]`. */
  lemma OddByteIsPadded(s: seq<byte>, b: byte)
    requires |s| % 2 == 0
    ensures Checksum(Little, s + [b]) == Checksum(Little, s + [b, 0])
  {
    PairSumAppend(Little, s, b, 0);
    assert RawSum(Little, s + [b]) == RawSum(Little, s + [b, 0]);
  }

  /** The RFC checksum pads an odd trailing byte with zero on every host. */
  lemma RfcOddByteIsPadded(order: ByteOrder, s: seq<byte>, b: byte)
    requires |s| % 2 == 0
    ensures RfcChecksum(order, s + [b]) == RfcChecksum(order, s + [b, 0])
  {
    PairSumAppend(order, s, b, 0);
    assert RfcSum(order, s + [b]) == RfcSum(order, s + [b, 0]);
  }

  /** The code and RFC 1071 agree on little-endian hosts and on even-length input. */
  lemma RfcAgrees(order: ByteOrder, s: seq<byte>)
    requires order == Little || |s| % 2 == 0
    ensures Checksum(order, s) == RfcChecksum(order, s)
  {
  }

  /** How many times 0xffff the fold took away: `Fold(sum) == sum - 0xffff * q`. */
  function FoldQuotient(sum: nat): nat
  {
    var u := sum / 0x10000 + sum % 0x10000;
    sum / 0x10000 + (if u >= 0x10000 then 1 else 0)
  }

  /** The fold of a 32-bit sum is congruent to it modulo 0xffff, at most 0xffff, and
      zero only for the zero sum. */
  lemma FoldFacts(sum: nat)
    requires sum < 0x1_0000_0000
    ensures Fold(sum) <= 0xffff
    ensures Fold(sum) == 0 <==> sum == 0
    ensures sum == Fold(sum) + 0xffff * FoldQuotient(sum)
  {
    var hi := sum / 0x10000;
    var lo := sum % 0x10000;
    assert sum % 0x1_0000_0000 == sum;
    assert sum == hi * 0x10000 + lo;
    assert hi < 0x10000;
    var u := hi + lo;
    assert sum == u + 0xffff * hi;
    if u < 0x10000 {
      assert u / 0x10000 == 0 && u % 0x10000 == u;
      assert Fold(sum) == u && FoldQuotient(sum) == hi;
    } else {
      assert u / 0x10000 == 1 && (u + 1) % 0x10000 == u + 1 - 0x10000;
      assert Fold(sum) == u + 1 - 0x10000 && FoldQuotient(sum) == hi + 1;
    }
  }

  /** The heart of the verification property: adding the complement of the fold to
      the sum makes the fold all ones. */
  lemma FoldComplement(sum: nat)
    requires sum + 0xffff < 0x1_0000_0000
    ensures Fold(sum + (0xffff - Fold(sum))) == 0xffff
  {
    FoldFacts(sum);
    var f := Fold(sum);
    var s2 := sum + (0xffff - f);
    FoldFacts(s2);
    var m := FoldQuotient(sum) + 1 - FoldQuotient(s2);
    assert Fold(s2) == 0xffff * m;
    assert s2 > 0;
    assert m <= 0 ==> 0xffff * m <= 0;
    assert m >= 2 ==> 0xffff * m >= 0x1fffe;
  }

  /** The two bytes `struct.pack("!H", x)` writes. */
  function NetBytes(x: nat): seq<byte>
    requires x < 0x10000
  {
    [x / 256, x % 256]
  }

  /** Reading back the network-order bytes of `htons(x)` as a host word gives x. */
  lemma HtonsRoundTrip(order: ByteOrder, x: nat)
    requires x < 0x10000
    ensures PairWord(order, NetBytes(Htons(order, x))[0], NetBytes(Htons(order, x))[1]) == x
  {
  }

  /** s with its bytes 2 and 3 (the checksum field) replaced by the network-order c. */
  function WithChecksumField(s: seq<byte>, c: nat): (r: seq<byte>)
    requires |s| >= 4 && c < 0x10000
    ensures |r| == |s|
  {
    s[..2] + NetBytes(c) + s[4..]
  }

  /** Each word weighs at most 0xffff. */
  lemma {:induction false} PairSumBound(order: ByteOrder, s: seq<byte>)
    ensures PairSum(order, s) <= 0xffff * (|s| / 2)
  {
    if |s| >= 2 {
      PairSumBound(order, s[2..]);
    }
  }

  /** Writing a word into the zeroed checksum field adds exactly that word to the
      pair sum; the odd trailing byte (index 4 or later) is unaffected. */
  lemma FieldAddsWord(order: ByteOrder, s: seq<byte>, c: nat)
    requires |s| >= 4 && s[2] == 0 && s[3] == 0 && c < 0x10000
    ensures PairSum(order, WithChecksumField(s, c))
            == PairSum(order, s) + PairWord(order, NetBytes(c)[0], NetBytes(c)[1])
    ensures WithChecksumField(s, c)[|s| - 1] == s[|s| - 1] || |s| % 2 == 0
  {
    var r := WithChecksumField(s, c);
    assert r[2..][2..] == s[2..][2..];
    assert r[0] == s[0] && r[1] == s[1];
  }

  /** Verification as RFC 1071 states it: checksumming a message whose checksum field
      holds the checksum computed over it (field zeroed) gives 0, whenever the message
      is short enough that the 32-bit truncation cannot fire. */
  lemma RfcVerifies(order: ByteOrder, s: seq<byte>)
    requires 4 <= |s| < 0x10000 && s[2] == 0 && s[3] == 0
    ensures RfcChecksum(order, WithChecksumField(s, RfcChecksum(order, s))) == 0
  {
    var sum := RfcSum(order, s);
    SumsBound(order, s);
    var c := RfcChecksum(order, s);
    var f := Fold(sum);
    FieldAddsWord(order, s, c);
    HtonsRoundTrip(order, 0xffff - f);
    assert RfcSum(order, WithChecksumField(s, c)) == sum + (0xffff - f);
    FoldComplement(sum);
  }

  /** The same self-consistency for the checksum as written: re-running `checksum`
      over its own output packet gives 0 on either byte order. */
  lemma ChecksumVerifies(order: ByteOrder, s: seq<byte>)
    requires 4 <= |s| < 0x10000 && s[2] == 0 && s[3] == 0
    ensures Checksum(order, WithChecksumField(s, Checksum(order, s))) == 0
  {
    var sum := RawSum(order, s);
    SumsBound(order, s);
    var c := Checksum(order, s);
    var f := Fold(sum);
    FieldAddsWord(order, s, c);
    HtonsRoundTrip(order, 0xffff - f);
    assert RawSum(order, WithChecksumField(s, c)) == sum + (0xffff - f);
    FoldComplement(sum);
  }

  /** Short inputs leave room below 2**32 for one more word in either sum. */
  lemma SumsBound(order: ByteOrder, s: seq<byte>)
    requires |s| < 0x10000
    ensures RawSum(order, s) + 0xffff < 0x1_0000_0000 && RfcSum(order, s) + 0xffff < 0x1_0000_0000
  {
    PairSumBound(order, s);
    assert 0xffff * (|s| / 2) <= 0xffff * 0x7fff;
  }

  /** On a big-endian host the code adds an odd trailing byte as the LOW byte of a
      word, so the packet it builds with the default one-byte payload fails the
      receiver's RFC 1071 check: here the header 08 00 00 00 00 01 00 01 with payload
      42 gets checksum f7bb, and the RFC sum over the sent packet is be41, not 0. */
  lemma BigEndianOddByteFails()
    ensures var s: seq<byte> := [8, 0, 0, 0, 0, 1, 0, 1, 0x42];
            Checksum(Big, s) == 0xf7bb
            && RfcChecksum(Big, WithChecksumField(s, Checksum(Big, s))) == 0xbe41
  {
    var s: seq<byte> := [8, 0, 0, 0, 0, 1, 0, 1, 0x42];
    PairSumOf(Big, s);
    assert PairSum(Big, s) == 0x0802;
    assert RawSum(Big, s) == 0x0844;
    assert Fold(0x0844) == 0x0844;
    var t := WithChecksumField(s, 0xf7bb);
    assert NetBytes(0xf7bb) == [0xf7, 0xbb];
    assert t[0] == 8 && t[1] == 0 && t[2] == 0xf7 && t[3] == 0xbb;
    assert t[4] == 0 && t[5] == 1 && t[6] == 0 && t[7] == 1 && t[8] == 0x42;
    PairSumOf(Big, t);
    assert PairSum(Big, t) == 0xffbd;
    assert RfcSum(Big, t) == 0x141bd;
    assert Fold(0x141bd) == 0x41be;
  }

  /** The pair sum of a nine-byte input, word by word. */
  lemma PairSumOf(order: ByteOrder, s: seq<byte>)
    requires |s| == 9
    ensures PairSum(order, s) == PairWord(order, s[0], s[1]) + PairWord(order, s[2], s[3])
                                 + PairWord(order, s[4], s[5]) + PairWord(order, s[6], s[7])
  {
    var s2 := s[2..];
    var s4 := s2[2..];
    var s6 := s4[2..];
    assert PairSum(order, s6[2..]) == 0;
    assert PairSum(order, s6) == PairWord(order, s[6], s[7]);
    assert PairSum(order, s4) == PairWord(order, s[4], s[5]) + PairWord(order, s[6], s[7]);
  }


}
