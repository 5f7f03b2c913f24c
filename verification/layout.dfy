/**
  Wire constants and the packed structures the hook overlays on the packet:
  the DHCPv6 option header (`dhcp6_option_hdr`) and the IA_PD layout
  (`dhcp6_ia_pd`), which is an IA_PD option body (section 9 of RFC 3633)
  immediately followed by one nested IA Prefix option (section 10 of
  RFC 3633). Each structure has an encoder to the wire and a decoder that
  reads the fields the hook reads; lemmas tie the two together.
 */
module Dhcp6Layout {
  import opened Bytes

  /** EtherType of IPv6, compared with skb->protocol. */
  const ETH_P_IPV6: u16 := 0x86DD
  /** IPv6 next-header value of UDP. */
  const IPPROTO_UDP: byte := 17

  const DHCPV6_CLIENT_PORT: u16 := 546
  const DHCPV6_SERVER_PORT: u16 := 547
  /** Message type Reply (section 7.3 of RFC 8415). */
  const DHCPV6_MSG_REPLY: byte := 7
  /** Option code OPTION_IA_PD (section 9 of RFC 3633). */
  const DHCPV6_OPT_IA_PD: u16 := 25

  /** Size of the UDP header that precedes the DHCPv6 message. */
  const UDP_HDR_LEN: nat := 8
  /** Size of `dhcp6_hdr`: message type and 3-octet transaction id. */
  const DHCPV6_HDR_LEN: nat := 4
  /** Size of `dhcp6_option_hdr`: option code and option length. */
  const DHCPV6_OPT_LEN: nat := 4

  /** Size of the packed `dhcp6_ia_pd` layout and the offsets of the two fields the hook reads. */
  const IA_PD_SIZE: nat := 41
  const IA_PD_PREFIX_LENGTH_OFFSET: nat := 24
  const IA_PD_PREFIX_OFFSET: nat := 25
  /** Size of `struct in6_addr`. */
  const IN6_ADDR_LEN: nat := 16

  /** The 16 octets of an IPv6 address (`struct in6_addr`). */
  type In6Addr = s: seq<byte> | |s| == 16
    witness [0, 0, 0, 0, 0, 0, 0, 0, 0, 0, 0, 0, 0, 0, 0, 0]

  /** `dhcp6_option_hdr` after ntohs of both fields. */
  datatype OptionHeader = OptionHeader(code: u16, length: u16)

  function EncodeOptionHeader(h: OptionHeader): (s: seq<byte>)
    ensures |s| == DHCPV6_OPT_LEN
  {
    EncodeBe16(h.code) + EncodeBe16(h.length)
  }

  /** The option header found at offset `at`: code and length in network order. */
  function OptionHeaderAt(s: seq<byte>, at: nat): (h: OptionHeader)
    requires at + DHCPV6_OPT_LEN <= |s|
  {
    OptionHeader(Be16(s, at), Be16(s, at + 2))
  }

  /** Encoding the header read at `at` gives back the four octets it was read from. */
  lemma EncodedOptionHeader(s: seq<byte>, at: nat)
    requires at + DHCPV6_OPT_LEN <= |s|
    ensures EncodeOptionHeader(OptionHeaderAt(s, at)) == s[at..at + DHCPV6_OPT_LEN]
  {
    EncodedBe16(s, at);
    EncodedBe16(s, at + 2);
    assert s[at..at + 4] == s[at..at + 2] + s[at + 2..at + 4];
  }

  /** Decoding an encoded option header gives back its code and length. */
  lemma OptionHeaderOfEncoded(s: seq<byte>, at: nat, h: OptionHeader)
    requires at + DHCPV6_OPT_LEN <= |s| && s[at..at + DHCPV6_OPT_LEN] == EncodeOptionHeader(h)
    ensures OptionHeaderAt(s, at) == h
  {
    assert s[at..at + 2] == s[at..at + 4][..2] == EncodeBe16(h.code);
    assert s[at + 2..at + 4] == s[at..at + 4][2..] == EncodeBe16(h.length);
    Be16OfEncoded(s, at, h.code);
    Be16OfEncoded(s, at + 2, h.length);
  }

  /** The packed `dhcp6_ia_pd` layout, field by field. */
  datatype IaPd = IaPd(
    iaid: u32, t1: u32, t2: u32,
    prefixOption: u16, prefixOptionLength: u16,
    preferredLifetime: u32, validLifetime: u32,
    prefixLength: byte, prefix: In6Addr)

  /** The 41 octets of the layout as a server puts them on the wire. */
  function EncodeIaPd(x: IaPd): (s: seq<byte>)
    ensures |s| == IA_PD_SIZE
  {
    EncodeBe32(x.iaid) + EncodeBe32(x.t1) + EncodeBe32(x.t2)
    + EncodeBe16(x.prefixOption) + EncodeBe16(x.prefixOptionLength)
    + EncodeBe32(x.preferredLifetime) + EncodeBe32(x.validLifetime)
    + [x.prefixLength] + x.prefix
  }

  /** `ia_pd_prefix_length` of the layout placed at offset `at`. */
  function IaPdPrefixLength(s: seq<byte>, at: nat): (n: byte)
    requires at + IA_PD_SIZE <= |s|
  {
    s[at + IA_PD_PREFIX_LENGTH_OFFSET]
  }

  /** `ia_pd_prefix` of the layout placed at offset `at`. */
  function IaPdPrefix(s: seq<byte>, at: nat): (p: In6Addr)
    requires at + IA_PD_SIZE <= |s|
  {
    s[at + IA_PD_PREFIX_OFFSET..at + IA_PD_SIZE]
  }

  /**
    Overlaying the layout on an encoded IA_PD yields the encoded prefix length
    and prefix, whatever the other fields hold; in particular the nested
    option's code and length are not consulted.
   */
  lemma IaPdDecodesEncoded(s: seq<byte>, at: nat, x: IaPd)
    requires at + IA_PD_SIZE <= |s| && s[at..at + IA_PD_SIZE] == EncodeIaPd(x)
    ensures IaPdPrefixLength(s, at) == x.prefixLength
    ensures IaPdPrefix(s, at) == x.prefix
  {
    var e := EncodeIaPd(x);
    assert e[IA_PD_PREFIX_LENGTH_OFFSET] == x.prefixLength;
    assert e[IA_PD_PREFIX_OFFSET..] == x.prefix;
    assert s[at + IA_PD_PREFIX_LENGTH_OFFSET] == e[IA_PD_PREFIX_LENGTH_OFFSET];
    assert s[at + IA_PD_PREFIX_OFFSET..at + IA_PD_SIZE] == e[IA_PD_PREFIX_OFFSET..];
  }
}
