/** The ICMP Echo Request the ping gate sends and the way it picks a reply off the raw
    socket (wait-until-pingable.py, `send_one_ping` and `receive_one_ping`; the
    "Echo or Echo Reply Message" of RFC 792). */
module IcmpEcho {
  import opened InetChecksum

  const ICMP_ECHOREPLY: byte := 0
  const ICMP_ECHO: byte := 8
  /** First payload byte; later ones count up from it, wrapping at 256. */
  const PAYLOAD_START := 0x42
  /** Bytes of the IPv4 header (without options) and of the ICMP header. */
  const IP_HEADER_LEN := 20
  const ICMP_HEADER_LEN := 8

  /** `struct.pack("!BBHHH", ICMP_ECHO, 0, checksum, id, seqNo)`. */
  function Header(checksum: nat, id: nat, seqNo: nat): (h: seq<byte>)
    requires checksum < 0x10000 && id < 0x10000 && seqNo < 0x10000
    ensures |h| == ICMP_HEADER_LEN
  {
    [ICMP_ECHO, 0] + NetBytes(checksum) + NetBytes(id) + NetBytes(seqNo)
  }

  /** The n payload bytes: `(0x42 + i) & 0xff` for i in 0..n-1. */
  function Payload(n: nat): (p: seq<byte>)
    ensures |p| == n && forall i :: 0 <= i < n ==> p[i] == (PAYLOAD_START + i) % 256
  {
    seq(n, i => (PAYLOAD_START + i) % 256)
  }

  /** The packet `send_one_ping` hands to `sendto`: the header with the code's
      `checksum` taken over the header (checksum field zero) and payload, then the
      payload. */
  function EchoRequest(order: ByteOrder, id: nat, seqNo: nat, n: nat): (p: seq<byte>)
    requires id < 0x10000 && seqNo < 0x10000
  {
    var data := Payload(n);
    Header(Checksum(order, Header(0, id, seqNo) + data), id, seqNo) + data
  }

  /** The corrected packet: the same layout with the RFC 1071 checksum in the header. */
  function RfcEchoRequest(order: ByteOrder, id: nat, seqNo: nat, n: nat): (p: seq<byte>)
    requires id < 0x10000 && seqNo < 0x10000
  {
    var data := Payload(n);
    Header(RfcChecksum(order, Header(0, id, seqNo) + data), id, seqNo) + data
  }

  /** Builds the Echo Request: the dummy header, the payload appended byte by byte, the
      checksum, then the header again with the checksum in it. */
  method BuildEchoRequest(order: ByteOrder, myID: nat, mySeqNumber: nat, numDataBytes: nat)
    returns (packet: seq<byte>)
    requires myID < 0x10000 && mySeqNumber < 0x10000
    ensures packet == EchoRequest(order, myID, mySeqNumber, numDataBytes)
  {
    var header := Header(0, myID, mySeqNumber);
    var padBytes: seq<byte> := [];
    var i := PAYLOAD_START;
    while i < PAYLOAD_START + numDataBytes
      invariant PAYLOAD_START <= i <= PAYLOAD_START + numDataBytes
      invariant padBytes == Payload(i - PAYLOAD_START)
    {
      padBytes := padBytes + [i % 256];
      i := i + 1;
    }
    var myChecksum := ComputeChecksum(order, header + padBytes);
    header := Header(myChecksum, myID, mySeqNumber);
    packet := header + padBytes;
  }

  /** The layout RFC 792 prescribes for an Echo Request: 8 + n bytes, type 8, code 0,
      identifier and sequence number big-endian at bytes 4-7, payload byte i equal to
      (0x42 + i) mod 256.  Whenever the packet fits in an IP datagram the code's own
      `checksum` over it is 0, and so is the RFC 1071 checksum a receiver computes,
      provided the host is little-endian or the payload has an even length. */
  lemma EchoRequestLayout(order: ByteOrder, id: nat, seqNo: nat, n: nat)
    requires id < 0x10000 && seqNo < 0x10000
    ensures var p := EchoRequest(order, id, seqNo, n);
            && |p| == ICMP_HEADER_LEN + n
            && p[0] == ICMP_ECHO && p[1] == 0
            && Be16(p[4], p[5]) == id && Be16(p[6], p[7]) == seqNo
            && p[ICMP_HEADER_LEN..] == Payload(n)
            && (ICMP_HEADER_LEN + n < 0x10000 ==> Checksum(order, p) == 0)
            && ((order == Little || n % 2 == 0) && ICMP_HEADER_LEN + n < 0x10000 ==> RfcChecksum(order, p) == 0)
  {
    var data := Payload(n);
    var zeroed := Header(0, id, seqNo) + data;
    var p := EchoRequest(order, id, seqNo, n);
    assert p == WithChecksumField(zeroed, Checksum(order, zeroed));
    if ICMP_HEADER_LEN + n < 0x10000 {
      ChecksumVerifies(order, zeroed);
      if order == Little || n % 2 == 0 {
        RfcAgrees(order, p);
      }
    }
  }

  /** The corrected packet passes a receiver's RFC 1071 check on every host whenever
      it fits in an IP datagram, and it is the packet the code sends wherever the two
      checksums agree. */
  lemma RfcEchoRequestVerifies(order: ByteOrder, id: nat, seqNo: nat, n: nat)
    requires id < 0x10000 && seqNo < 0x10000
    ensures var p := RfcEchoRequest(order, id, seqNo, n);
            && (ICMP_HEADER_LEN + n < 0x10000 ==> RfcChecksum(order, p) == 0)
            && (order == Little || n % 2 == 0 ==> p == EchoRequest(order, id, seqNo, n))
  {
    var data := Payload(n);
    var zeroed := Header(0, id, seqNo) + data;
    var p := RfcEchoRequest(order, id, seqNo, n);
    assert p == WithChecksumField(zeroed, RfcChecksum(order, zeroed));
    if ICMP_HEADER_LEN + n < 0x10000 {
      RfcVerifies(order, zeroed);
    }
    if order == Little || n % 2 == 0 {
      RfcAgrees(order, zeroed);
    }
  }

  /** The packet the code sends on a big-endian host with the default one-byte payload
      (identifier 1, sequence number 1) fails a receiver's RFC 1071 check. */
  lemma BigEndianDefaultPingFails()
    ensures RfcChecksum(Big, EchoRequest(Big, 1, 1, 1)) != 0
  {
    var zeroed := Header(0, 1, 1) + Payload(1);
    assert NetBytes(0) == [0, 0] && NetBytes(1) == [0, 1];
    assert zeroed == [8, 0, 0, 0, 0, 1, 0, 1, 0x42];
    assert EchoRequest(Big, 1, 1, 1) == WithChecksumField(zeroed, Checksum(Big, zeroed));
    BigEndianOddByteFails();
  }

  /** `struct.unpack("!H", ...)` and `struct.unpack("!I", ...)`. */
  function Be16(a: byte, b: byte): nat {
    a * 256 + b
  }

  function Be32(a: byte, b: byte, c: byte, d: byte): nat {
    ((a * 256 + b) * 256 + c) * 256 + d
  }

  /** The ICMP identifier the code reads from a received datagram: bytes 24-25,
      right behind a 20-byte IP header. */
  function PacketId(p: seq<byte>): nat
    requires |p| >= IP_HEADER_LEN + ICMP_HEADER_LEN
  {
    Be16(p[24], p[25])
  }

  /** What `receive_one_ping` returns for an accepted packet. */
  datatype Reply = Reply(timeReceived: int, dataSize: nat, srcIP: nat, seqNo: nat, ttl: nat)

  /** The outcome of one receive: an accepted reply, the "no reply" tuple of Nones, or
      the `struct.error` raised on a datagram too short to unpack. */
  datatype ReceiveResult = Received(reply: Reply) | NoReply | Unpackable

  /** A datagram the raw socket delivers, `wait` ticks after `select` was entered. */
  datatype Arrival = Arrival(wait: nat, packet: seq<byte>)

  /** The filter of `receive_one_ping`: the identifier alone decides. */
  predicate Accepts(p: seq<byte>, myID: nat) {
    |p| >= IP_HEADER_LEN + ICMP_HEADER_LEN && PacketId(p) == myID
  }

  /** The reply tuple unpacked from an accepted datagram received at time t. */
  function ParseReply(p: seq<byte>, t: int): Reply
    requires |p| >= IP_HEADER_LEN + ICMP_HEADER_LEN
  {
    Reply(t, |p| - (IP_HEADER_LEN + ICMP_HEADER_LEN), Be32(p[12], p[13], p[14], p[15]),
          Be16(p[26], p[27]), p[8])
  }

  /** The receive loop over the arrivals: `select` waits at most timeLeft; a
      datagram with another identifier costs the time spent waiting for it. */
  function Receive(myID: nat, timeLeft: int, now: int, arrivals: seq<Arrival>): ReceiveResult
    decreases |arrivals|
  {
    if arrivals == [] || arrivals[0].wait > timeLeft then NoReply
    else
      var a := arrivals[0];
      if |a.packet| < IP_HEADER_LEN + ICMP_HEADER_LEN then Unpackable
      else if Accepts(a.packet, myID) then Received(ParseReply(a.packet, now + a.wait))
      else if timeLeft - a.wait <= 0 then NoReply
      else Receive(myID, timeLeft - a.wait, now + a.wait, arrivals[1..])
  }

  /** `receive_one_ping(mySocket, myID, timeout)` started at time `start`; the socket is
      the sequence of arrivals, and running out of them is a `select` timeout. */
  method ReceiveOnePing(myID: nat, timeout: nat, start: int, arrivals: seq<Arrival>)
    returns (r: ReceiveResult)
    ensures r == Receive(myID, timeout, start, arrivals)
  {
    var timeLeft: int := timeout;
    var now := start;
    var i := 0;
    while true
      invariant 0 <= i <= |arrivals|
      invariant Receive(myID, timeLeft, now, arrivals[i..]) == Receive(myID, timeout, start, arrivals)
      decreases |arrivals| - i
    {
      if i == |arrivals| || arrivals[i].wait > timeLeft {
        return NoReply;
      }
      var howLongInSelect := arrivals[i].wait;
      var timeReceived := now + howLongInSelect;
      var recPacket := arrivals[i].packet;
      if |recPacket| < IP_HEADER_LEN + ICMP_HEADER_LEN {
        return Unpackable;
      }
      var icmpPacketID := Be16(recPacket[24], recPacket[25]);
      if icmpPacketID == myID {
        var dataSize := |recPacket| - (IP_HEADER_LEN + ICMP_HEADER_LEN);
        return Received(Reply(timeReceived, dataSize, Be32(recPacket[12], recPacket[13], recPacket[14], recPacket[15]),
                              Be16(recPacket[26], recPacket[27]), recPacket[8]));
      }
      timeLeft := timeLeft - howLongInSelect;
      now := timeReceived;
      assert arrivals[i..][1..] == arrivals[i + 1..];
      i := i + 1;
      if timeLeft <= 0 {
        return NoReply;
      }
    }
  }

  /** Time spent waiting for the first k arrivals. */
  function Elapsed(arrivals: seq<Arrival>, k: nat): nat
    requires k <= |arrivals|
  {
    if k == 0 then 0 else Elapsed(arrivals, k - 1) + arrivals[k - 1].wait
  }

  lemma ElapsedTail(arrivals: seq<Arrival>, k: nat)
    requires 0 < k <= |arrivals|
    ensures Elapsed(arrivals, k) == arrivals[0].wait + Elapsed(arrivals[1..], k - 1)
  {
    if k > 1 {
      ElapsedTail(arrivals, k - 1);
    }
  }

  /** The timeout budget is spent, never reset: an accepted reply was received no
      later than `timeout` after the receive started. */
  lemma {:induction false} ReplyWithinTimeout(myID: nat, timeLeft: int, now: int, arrivals: seq<Arrival>)
    ensures var r := Receive(myID, timeLeft, now, arrivals);
            r.Received? ==> now <= r.reply.timeReceived <= now + timeLeft
    decreases |arrivals|
  {
    if arrivals != [] && arrivals[0].wait <= timeLeft {
      var a := arrivals[0];
      if |a.packet| >= IP_HEADER_LEN + ICMP_HEADER_LEN && !Accepts(a.packet, myID)
         && timeLeft - a.wait > 0 {
        ReplyWithinTimeout(myID, timeLeft - a.wait, now + a.wait, arrivals[1..]);
      }
    }
  }

  /** Conversely, a matching datagram that arrives within the budget left over by the
      foreign ones before it is accepted, whatever its ICMP type. */
  lemma {:induction false} ReplyFound(myID: nat, timeLeft: int, now: int, arrivals: seq<Arrival>, k: nat)
    requires k < |arrivals|
    requires forall j :: 0 <= j < k ==> |arrivals[j].packet| >= IP_HEADER_LEN + ICMP_HEADER_LEN
                                        && !Accepts(arrivals[j].packet, myID)
    requires forall j :: 1 <= j <= k ==> Elapsed(arrivals, j) < timeLeft
    requires Elapsed(arrivals, k + 1) <= timeLeft && Accepts(arrivals[k].packet, myID)
    ensures Receive(myID, timeLeft, now, arrivals)
            == Received(ParseReply(arrivals[k].packet, now + Elapsed(arrivals, k + 1)))
    decreases k
  {
    ElapsedTail(arrivals, k + 1);
    if k == 0 {
      assert Elapsed(arrivals, 1) == arrivals[0].wait;
    } else {
      var a := arrivals[0];
      assert Elapsed(arrivals, 1) == a.wait;
      var rest := arrivals[1..];
      forall j | 1 <= j <= k - 1 ensures Elapsed(rest, j) < timeLeft - a.wait {
        ElapsedTail(arrivals, j + 1);
      }
      forall j | 0 <= j < k - 1
        ensures |rest[j].packet| >= IP_HEADER_LEN + ICMP_HEADER_LEN && !Accepts(rest[j].packet, myID)
      {
        assert rest[j] == arrivals[j + 1];
      }
      ReplyFound(myID, timeLeft - a.wait, now + a.wait, rest, k - 1);
    }
  }

  /** Datagrams that all carry another identifier never produce a reply. */
  lemma {:induction false} ForeignOnly(myID: nat, timeLeft: int, now: int, arrivals: seq<Arrival>)
    requires forall j :: 0 <= j < |arrivals| ==> |arrivals[j].packet| >= IP_HEADER_LEN + ICMP_HEADER_LEN
                                                 && !Accepts(arrivals[j].packet, myID)
    ensures Receive(myID, timeLeft, now, arrivals) == NoReply
    decreases |arrivals|
  {
    if arrivals != [] && arrivals[0].wait <= timeLeft && timeLeft - arrivals[0].wait > 0 {
      ForeignOnly(myID, timeLeft - arrivals[0].wait, now + arrivals[0].wait, arrivals[1..]);
    }
  }

  /** The filter does not look at the ICMP type: on loopback the tool's own Echo
      Request (type 8), seen on the raw socket behind any IP header, is taken as the
      reply, with the payload size as its data size. */
  lemma OwnRequestAccepted(order: ByteOrder, ipHeader: seq<byte>, id: nat, seqNo: nat, n: nat, t: int)
    requires |ipHeader| == IP_HEADER_LEN && id < 0x10000 && seqNo < 0x10000
    ensures var p := ipHeader + EchoRequest(order, id, seqNo, n);
            && Accepts(p, id) && p[IP_HEADER_LEN] == ICMP_ECHO && ICMP_ECHO != ICMP_ECHOREPLY
            && ParseReply(p, t).dataSize == n && ParseReply(p, t).seqNo == seqNo
  {
    EchoRequestLayout(order, id, seqNo, n);
  }
}
