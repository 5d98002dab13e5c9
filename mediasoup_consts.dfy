/**
 * The packet-size constants of the mediasoup worker (RTC::Consts). Sizes are
 * C++ size_t / uint8_t values; the model keeps them as naturals and states
 * the width facts explicitly.
 */
module MediasoupConsts {

  /** Largest value of a uint8_t. */
  const Uint8Max: nat := 255

  /** The Ethernet MTU the worker budgets against. */
  const MtuSize: nat := 1500

  /** Header budget: an IPv6 header (the larger of IPv4's 20 and IPv6's 40 bytes). */
  const Ipv6HeaderSize: nat := 40
  /** Header budget: a TCP header (the larger of UDP's 8 and TCP's 20 bytes). */
  const TcpHeaderSize: nat := 20
  /** The most bytes SRTCP protection (srtp_protect_rtcp) appends to a packet. */
  const SrtcpMaxTrailer: nat := 148

  /**
   * The largest RTCP compound packet that still fits in one MTU once carried
   * over IPv6 and TCP and protected by SRTCP. In size_t arithmetic the
   * subtraction wraps modulo 2^64; the value is what wraps when it does not.
   */
  function RtcpPacketMaxSize(): (size: nat)
    ensures size == 1292
    ensures size + Ipv6HeaderSize + TcpHeaderSize + SrtcpMaxTrailer == MtuSize
    ensures size < MtuSize
  {
    SizeTSub(SizeTSub(SizeTSub(MtuSize, Ipv6HeaderSize), TcpHeaderSize), SrtcpMaxTrailer)
  }

  const SizeTModulus: nat := 0x1_0000_0000_0000_0000

  /** size_t subtraction: wraps around below zero. */
  function SizeTSub(a: nat, b: nat): (r: nat)
    requires a < SizeTModulus && b < SizeTModulus
    ensures r < SizeTModulus
    ensures b <= a ==> r == a - b
    ensures b > a ==> r == a - b + SizeTModulus
  {
    (a - b) % SizeTModulus
  }

  /** The longest MID value written into the RTP header extension. */
  const MidRtpExtensionMaxLength: nat := 8

  lemma MidRtpExtensionMaxLengthFits()
    ensures 0 < MidRtpExtensionMaxLength <= Uint8Max
  {
  }
}
