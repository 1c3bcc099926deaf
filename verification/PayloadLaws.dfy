/** What counts as useful payload. */
module PayloadLaws {
  import opened Base
  import opened Wire

  /** An IPv4 header of `words` 32-bit words; `middle` are the identification, fragment and time-to-live fields, `rest`
      the checksum, the addresses and the options. */
  function IpHeader(words: nat, tos: Byte, totalLen: nat, middle: seq<Byte>, protocol: nat, rest: seq<Byte>)
    : (h: seq<Byte>)
    requires 5 <= words <= 15 && totalLen < UINT16 && |middle| == 5 && protocol < 256 && |rest| == 4 * words - 10
    ensures |h| == 4 * words
  {
    [ByteOf(64 + words), tos] + Encode16(totalLen) + middle + [ByteOf(protocol)] + rest
  }

  function UdpDatagram(ports: seq<Byte>, length: nat, checksum: seq<Byte>, payload: seq<Byte>): (d: seq<Byte>)
    requires |ports| == 4 && |checksum| == 2 && length < UINT16
    ensures |d| == 8 + |payload|
  {
    ports + Encode16(length) + checksum + payload
  }

  lemma HeaderFields(words: nat, tos: Byte, totalLen: nat, middle: seq<Byte>, protocol: nat, rest: seq<Byte>,
                     more: seq<Byte>)
    requires 5 <= words <= 15 && totalLen < UINT16 && |middle| == 5 && protocol < 256 && |rest| == 4 * words - 10
    ensures var pkt := IpHeader(words, tos, totalLen, middle, protocol, rest) + more;
      && Value(pkt[0]) % 16 * 4 == 4 * words && Decode16(pkt[2..4]) == totalLen && Value(pkt[9]) == protocol
  {
    var pkt := IpHeader(words, tos, totalLen, middle, protocol, rest) + more;
    RoundTrip16(totalLen);
    assert pkt[2..4] == Encode16(totalLen);
  }

  lemma UdpLengthField(header: seq<Byte>, ports: seq<Byte>, length: nat, checksum: seq<Byte>, payload: seq<Byte>)
    requires |ports| == 4 && |checksum| == 2 && length < UINT16
    ensures var pkt := header + UdpDatagram(ports, length, checksum, payload);
      Decode16(pkt[|header| + 4..|header| + 6]) == length
  {
    var pkt := header + UdpDatagram(ports, length, checksum, payload);
    RoundTrip16(length);
    assert pkt[|header| + 4..|header| + 6] == Encode16(length);
  }

  /** The two length fields of an IPv4 packet that carries UDP, and how many bytes are counted. */
  lemma UdpPacketCounts(words: nat, tos: Byte, totalLen: nat, middle: seq<Byte>, rest: seq<Byte>, ports: seq<Byte>,
                        length: nat, checksum: seq<Byte>, payload: seq<Byte>)
    returns (pkt: Packet)
    requires 5 <= words <= 15 && |middle| == 5 && |rest| == 4 * words - 10 && |ports| == 4 && |checksum| == 2
    requires totalLen < UINT16 && length < UINT16
    ensures pkt == IpHeader(words, tos, totalLen, middle, 17, rest) + UdpDatagram(ports, length, checksum, payload)
    ensures 4 * words + 8 <= totalLen <= |pkt| && 8 <= length <= totalLen - 4 * words ==>
              PayloadBytes(pkt) == length - 8
    ensures 4 * words + 8 <= totalLen <= |pkt| && !(8 <= length <= totalLen - 4 * words) ==>
              PayloadBytes(pkt) == totalLen - 4 * words - 8
    ensures 0 < totalLen < 4 * words + 8 ==> PayloadBytes(pkt) == 0
    ensures (totalLen == 0 || totalLen > |pkt|) && 8 <= length <= 8 + |payload| ==> PayloadBytes(pkt) == length - 8
    ensures (totalLen == 0 || totalLen > |pkt|) && !(8 <= length <= 8 + |payload|) ==> PayloadBytes(pkt) == |payload|
  {
    var header := IpHeader(words, tos, totalLen, middle, 17, rest);
    var datagram := UdpDatagram(ports, length, checksum, payload);
    HeaderFields(words, tos, totalLen, middle, 17, rest, datagram);
    UdpLengthField(header, ports, length, checksum, payload);
    pkt := header + datagram;
  }

  /** Of a well-formed packet the payload of the UDP datagram counts, whatever the options, and whatever follows the
      datagram inside the IP packet or behind it. */
  lemma UdpPayloadCounts(words: nat, tos: Byte, totalLen: nat, middle: seq<Byte>, rest: seq<Byte>, ports: seq<Byte>,
                         checksum: seq<Byte>, payload: seq<Byte>, padding: seq<Byte>)
    requires 5 <= words <= 15 && |middle| == 5 && |rest| == 4 * words - 10 && |ports| == 4 && |checksum| == 2
    requires 4 * words + 8 + |payload| <= totalLen <= 4 * words + 8 + |payload| + |padding| && totalLen < UINT16
    ensures var header := IpHeader(words, tos, totalLen, middle, 17, rest);
      PayloadBytes(header + UdpDatagram(ports, 8 + |payload|, checksum, payload) + padding) == |payload|
  {
    var header, datagram := IpHeader(words, tos, totalLen, middle, 17, rest),
                            UdpDatagram(ports, 8 + |payload|, checksum, payload);
    var pkt := UdpPacketCounts(words, tos, totalLen, middle, rest, ports, 8 + |payload|, checksum, payload + padding);
    assert header + datagram + padding == pkt;
  }

  /** Other protocols count nothing. */
  lemma OtherProtocolsCountNothing(words: nat, tos: Byte, totalLen: nat, middle: seq<Byte>, protocol: nat,
                                   rest: seq<Byte>, more: seq<Byte>)
    requires 5 <= words <= 15 && totalLen < UINT16 && |middle| == 5 && protocol < 256 && |rest| == 4 * words - 10
    requires protocol != 17
    ensures PayloadBytes(IpHeader(words, tos, totalLen, middle, protocol, rest) + more) == 0
  {
    HeaderFields(words, tos, totalLen, middle, protocol, rest, more);
  }

  /** Whatever the bytes are, no more counts than follows the two shortest headers. */
  lemma PayloadIsPartOfPacket(pkt: Packet)
    ensures PayloadBytes(pkt) == 0 || PayloadBytes(pkt) + 28 <= |pkt|
  {
  }
}
