/**
  What the callback promises, stated over the specification `Handle`,
  `ScanOptions` and `OptionStep`: which packets reach the option loop, how the
  cursor moves, what is read and what is not, and what an IA_PD produces.
 */
module Dhcp6HookProperties {
  import opened Bytes
  import opened Dhcp6Layout
  import opened Dhcp6Hook

  // ---------------------------------------------------------------------------
  // The gate
  // ---------------------------------------------------------------------------

  /**
    Each early return of the callback happens exactly on its own condition,
    tested in the order of the source; the message type is the first octet
    after the 8-octet UDP header.
   */
  lemma GateExits(p: Packet)
    ensures Handle(p).exit == NotIpv6 <==> p.protocol != ETH_P_IPV6
    ensures Handle(p).exit == NotUdp <==> p.protocol == ETH_P_IPV6 && p.nextHeader != IPPROTO_UDP
    ensures Handle(p).exit == Fault(UdpHeader) <==>
      p.protocol == ETH_P_IPV6 && p.nextHeader == IPPROTO_UDP && |p.transport| < 6
    ensures Handle(p).exit == NotFromServer <==>
      p.protocol == ETH_P_IPV6 && p.nextHeader == IPPROTO_UDP && |p.transport| >= 6
      && Be16(p.transport, 0) != DHCPV6_SERVER_PORT
    ensures Handle(p).exit == NotToClient <==>
      p.protocol == ETH_P_IPV6 && p.nextHeader == IPPROTO_UDP && |p.transport| >= 6
      && Be16(p.transport, 0) == DHCPV6_SERVER_PORT && Be16(p.transport, 2) != DHCPV6_CLIENT_PORT
    ensures Handle(p).exit == Fault(MessageTypeOctet) <==>
      p.protocol == ETH_P_IPV6 && p.nextHeader == IPPROTO_UDP && 6 <= |p.transport| < UDP_HDR_LEN + 1
      && Be16(p.transport, 0) == DHCPV6_SERVER_PORT && Be16(p.transport, 2) == DHCPV6_CLIENT_PORT
    ensures Handle(p).exit == NotReply <==>
      p.protocol == ETH_P_IPV6 && p.nextHeader == IPPROTO_UDP && |p.transport| >= UDP_HDR_LEN + 1
      && Be16(p.transport, 0) == DHCPV6_SERVER_PORT && Be16(p.transport, 2) == DHCPV6_CLIENT_PORT
      && p.transport[UDP_HDR_LEN] != DHCPV6_MSG_REPLY
  {
  }

  /** The records the gate prints for a Reply that reaches the option loop. */
  const ReplyGateLog: seq<LogRecord> :=
    [ReceivedIpv6Udp, Ports(DHCPV6_SERVER_PORT, DHCPV6_CLIENT_PORT), ServerResponse,
     MessageType(DHCPV6_MSG_REPLY), ReplyMessage]

  /**
    A packet that is not a Reply from port 547 to port 546 over IPv6/UDP is
    let through after at most four gate records, without any option being
    looked at.
   */
  lemma GateRejects(p: Packet)
    requires !IsServerReply(p)
    ensures |Handle(p).log| <= 4 && !Handle(p).exit.OptionsDone?
    ensures forall k :: 0 <= k < |Handle(p).log| ==>
      !Handle(p).log[k].IsOptionRecord() && Handle(p).log[k] != ReplyMessage
  {
  }

  /**
    A Reply's log is the gate's five records, then what the option walk
    prints starting at cursor 12 (UDP header plus DHCPv6 header) with the UDP
    length field as its bound, then the end-of-list record if the walk
    finished; the callback ends as the walk ends.
   */
  lemma GateAdmits(p: Packet)
    requires IsServerReply(p)
    ensures var t := p.transport;
      var scan := ScanOptions(t, Be16(t, 4), UDP_HDR_LEN + DHCPV6_HDR_LEN);
      && Handle(p).exit == scan.exit
      && Handle(p).log == ReplyGateLog + scan.log + (if scan.exit.OptionsDone? then [EndOfOptions] else [])
  {
    assert [ReceivedIpv6Udp] + [Ports(DHCPV6_SERVER_PORT, DHCPV6_CLIENT_PORT)] + [ServerResponse]
           + [MessageType(DHCPV6_MSG_REPLY)] + [ReplyMessage] == ReplyGateLog;
  }

  /**
    Only a Reply from port 547 to port 546 over IPv6/UDP reaches the option
    loop: the Reply record is printed exactly for those packets, and no other
    packet has any option header reported.
   */
  lemma GateDecidesScan(p: Packet)
    ensures ReplyMessage in Handle(p).log <==> IsServerReply(p)
    ensures !IsServerReply(p) ==> LoggedHeaders(Handle(p).log) == []
  {
    var r := Handle(p);
    if IsServerReply(p) {
      GateAdmits(p);
      assert r.log[4] == ReplyMessage;
    } else {
      GateRejects(p);
      NoHeadersWithoutFoundOption(r.log);
    }
  }

  // ---------------------------------------------------------------------------
  // The option headers a log reports
  // ---------------------------------------------------------------------------

  /** The option headers reported by the FoundOption records of a log, in order. */
  function LoggedHeaders(log: seq<LogRecord>): (hs: seq<OptionHeader>) {
    if log == [] then []
    else if log[0].FoundOption? then [OptionHeader(log[0].code, log[0].length)] + LoggedHeaders(log[1..])
    else LoggedHeaders(log[1..])
  }

  lemma {:induction false} LoggedHeadersAppend(a: seq<LogRecord>, b: seq<LogRecord>)
    ensures LoggedHeaders(a + b) == LoggedHeaders(a) + LoggedHeaders(b)
  {
    if a == [] {
      assert a + b == b;
    } else {
      assert (a + b)[0] == a[0] && (a + b)[1..] == a[1..] + b;
      LoggedHeadersAppend(a[1..], b);
    }
  }

  lemma {:induction false} NoHeadersWithoutFoundOption(log: seq<LogRecord>)
    requires forall k :: 0 <= k < |log| ==> !log[k].FoundOption?
    ensures LoggedHeaders(log) == []
  {
    if log != [] {
      NoHeadersWithoutFoundOption(log[1..]);
    }
  }

  /** Handling one option reports exactly one header: the one at the cursor. */
  lemma OneHeaderPerOption(t: seq<byte>, pos: nat)
    requires pos + DHCPV6_OPT_LEN <= |t|
    ensures LoggedHeaders(OptionStep(t, pos).records) == [OptionHeaderAt(t, pos)]
  {
    var records := OptionStep(t, pos).records;
    assert records == [records[0]] + records[1..];
    LoggedHeadersAppend([records[0]], records[1..]);
    NoHeadersWithoutFoundOption(records[1..]);
  }

  // ---------------------------------------------------------------------------
  // The cursor
  // ---------------------------------------------------------------------------

  /** A cursor position of the option loop and the header read there. */
  datatype Visit = Visit(at: nat, header: OptionHeader)

  /** The cursor after an option: past its 4-octet header and its declared length. */
  function After(v: Visit): (next: nat) {
    v.at + DHCPV6_OPT_LEN + v.header.length
  }

  /** The cursor once the walk `w`, started at `pos`, is over. */
  function Final(w: seq<Visit>, pos: nat): (last: nat) {
    if w == [] then pos else After(w[|w| - 1])
  }

  /** The headers read along a walk, in order. */
  function Headers(w: seq<Visit>): (hs: seq<OptionHeader>) {
    seq(|w|, k requires 0 <= k < |w| => w[k].header)
  }

  /**
    The cursor positions of the option loop, independently of what the
    options hold: from `pos`, while the cursor is below `udplen` and leaves
    room for a 4-octet header, read the header there and move past the option.
   */
  function Walk(t: seq<byte>, udplen: nat, pos: nat): (w: seq<Visit>)
    decreases if pos < udplen then udplen - pos else 0
  {
    if pos >= udplen || pos + DHCPV6_OPT_LEN > |t| then []
    else
      var v := Visit(pos, OptionHeaderAt(t, pos));
      [v] + Walk(t, udplen, After(v))
  }

  /**
    The cursor of the option loop starts at `pos`; every position it takes is
    below `udplen` and leaves room for a 4-octet header; every next position
    is the previous one plus 4 plus the declared length, whatever the option
    code, so the cursor strictly increases; and the loop ends at the first
    position that is not below `udplen` or that has no room for a header.
   */
  lemma {:induction false} WalkCursorRule(t: seq<byte>, udplen: nat, pos: nat)
    decreases if pos < udplen then udplen - pos else 0
    ensures var w := Walk(t, udplen, pos);
      && (forall k :: 0 <= k < |w| ==>
            pos <= w[k].at < udplen && w[k].at + DHCPV6_OPT_LEN <= |t| && w[k].header == OptionHeaderAt(t, w[k].at))
      && (|w| > 0 ==> w[0].at == pos)
      && (forall k :: 0 <= k < |w| - 1 ==> w[k + 1].at == After(w[k]) > w[k].at)
      && (Final(w, pos) >= udplen || Final(w, pos) + DHCPV6_OPT_LEN > |t|)
  {
    if pos < udplen && pos + DHCPV6_OPT_LEN <= |t| {
      var v := Visit(pos, OptionHeaderAt(t, pos));
      var rest := Walk(t, udplen, After(v));
      WalkCursorRule(t, udplen, After(v));
      var w := [v] + rest;
      assert Walk(t, udplen, pos) == w;
      assert forall k :: 1 <= k < |w| ==> w[k] == rest[k - 1];
      if rest != [] {
        assert w[1].at == After(v);
        assert Final(w, pos) == Final(rest, After(v));
      }
    }
  }

  /**
    The loop's cursor fits the 32-bit `current_pos`: with a 16-bit UDP length
    and 16-bit option lengths it never exceeds 65535 + 4 + 65535.
   */
  lemma CursorNeverWraps(t: seq<byte>, udplen: u16, pos: nat)
    ensures forall k :: 0 <= k < |Walk(t, udplen, pos)| ==> After(Walk(t, udplen, pos)[k]) < 0x1_0000_0000
  {
    WalkCursorRule(t, udplen, pos);
  }

  /**
    The options the walk reports are those at the cursor positions of `Walk`,
    in order; all of them when the walk finishes, a prefix of them when a read
    goes out of bounds. A walk that finishes leaves the cursor at or past
    `udplen`.
   */
  lemma {:induction false} ScanFollowsWalk(t: seq<byte>, udplen: nat, pos: nat)
    decreases if pos < udplen then udplen - pos else 0
    ensures LoggedHeaders(ScanOptions(t, udplen, pos).log) <= Headers(Walk(t, udplen, pos))
    ensures ScanOptions(t, udplen, pos).exit.OptionsDone? ==>
      LoggedHeaders(ScanOptions(t, udplen, pos).log) == Headers(Walk(t, udplen, pos))
      && Final(Walk(t, udplen, pos), pos) >= udplen
  {
    if pos < udplen && pos + DHCPV6_OPT_LEN <= |t| {
      var h := OptionHeaderAt(t, pos);
      var next := After(Visit(pos, h));
      WalkStep(t, udplen, pos);
      if OptionStep(t, pos).Next? {
        ScanStep(t, udplen, pos);
        ScanFollowsWalk(t, udplen, next);
      } else {
        OneHeaderPerOption(t, pos);
      }
    }
  }

  /** One step of `Walk`: the header at the cursor, then the walk from past that option. */
  lemma WalkStep(t: seq<byte>, udplen: nat, pos: nat)
    requires pos < udplen && pos + DHCPV6_OPT_LEN <= |t|
    ensures var v := Visit(pos, OptionHeaderAt(t, pos));
      && Headers(Walk(t, udplen, pos)) == [v.header] + Headers(Walk(t, udplen, After(v)))
      && Final(Walk(t, udplen, pos), pos) == Final(Walk(t, udplen, After(v)), After(v))
  {
    var v := Visit(pos, OptionHeaderAt(t, pos));
    var w, w' := Walk(t, udplen, pos), Walk(t, udplen, After(v));
    assert w == [v] + w';
    assert Headers(w) == [v.header] + Headers(w');
    if w' != [] {
      assert w[|w| - 1] == w'[|w'| - 1];
    }
  }

  /** One step of the option walk when the option is handled to its end: its one header, then the rest. */
  lemma ScanStep(t: seq<byte>, udplen: nat, pos: nat)
    requires pos < udplen && pos + DHCPV6_OPT_LEN <= |t| && OptionStep(t, pos).Next?
    ensures var next := After(Visit(pos, OptionHeaderAt(t, pos)));
      && LoggedHeaders(ScanOptions(t, udplen, pos).log)
         == [OptionHeaderAt(t, pos)] + LoggedHeaders(ScanOptions(t, udplen, next).log)
      && ScanOptions(t, udplen, pos).exit == ScanOptions(t, udplen, next).exit
  {
    var step := OptionStep(t, pos);
    var rest := ScanOptions(t, udplen, step.next);
    assert ScanOptions(t, udplen, pos).log == step.records + rest.log;
    OneHeaderPerOption(t, pos);
    LoggedHeadersAppend(step.records, rest.log);
  }

  /**
    For a Reply, the options the hook reports are the ones at the cursor
    positions starting at 12 (UDP header plus DHCPv6 header) and bounded by
    the UDP length field.
   */
  lemma ReportedOptionsFollowCursor(p: Packet)
    requires IsServerReply(p)
    ensures var t := p.transport;
      var w := Walk(t, Be16(t, 4), UDP_HDR_LEN + DHCPV6_HDR_LEN);
      && LoggedHeaders(Handle(p).log) <= Headers(w)
      && (Handle(p).exit.OptionsDone? ==> LoggedHeaders(Handle(p).log) == Headers(w))
  {
    var t := p.transport;
    var scan := ScanOptions(t, Be16(t, 4), UDP_HDR_LEN + DHCPV6_HDR_LEN);
    GateAdmits(p);
    ReplyLogHeaders(scan.log, scan.exit.OptionsDone?);
    ScanFollowsWalk(t, Be16(t, 4), UDP_HDR_LEN + DHCPV6_HDR_LEN);
  }

  /** The gate records and the end-of-list record report no option header. */
  lemma ReplyLogHeaders(scanLog: seq<LogRecord>, done: bool)
    ensures LoggedHeaders(ReplyGateLog + scanLog + (if done then [EndOfOptions] else [])) == LoggedHeaders(scanLog)
  {
    var tail: seq<LogRecord> := if done then [EndOfOptions] else [];
    LoggedHeadersAppend(ReplyGateLog + scanLog, tail);
    LoggedHeadersAppend(ReplyGateLog, scanLog);
    assert forall k :: 0 <= k < |ReplyGateLog| ==> !ReplyGateLog[k].FoundOption?;
    NoHeadersWithoutFoundOption(ReplyGateLog);
    NoHeadersWithoutFoundOption(tail);
  }

  // ---------------------------------------------------------------------------
  // What is read
  // ---------------------------------------------------------------------------

  /** One option is handled from the octets at and after the cursor only. */
  lemma StepReadsOnlyAhead(t: seq<byte>, t': seq<byte>, pos: nat)
    requires |t| == |t'| && pos + DHCPV6_OPT_LEN <= |t|
    requires forall i :: pos <= i < |t| ==> t[i] == t'[i]
    ensures OptionStep(t, pos) == OptionStep(t', pos)
  {
    assert OptionHeaderAt(t, pos) == OptionHeaderAt(t', pos);
    var body := pos + DHCPV6_HDR_LEN;
    if body + IA_PD_SIZE <= |t| {
      assert IaPdPrefix(t, body) == IaPdPrefix(t', body);
    }
  }

  /** The walk from a cursor never looks at the octets before it. */
  lemma {:induction false} ScanReadsOnlyAhead(t: seq<byte>, t': seq<byte>, udplen: nat, pos: nat)
    requires |t| == |t'|
    requires forall i :: pos <= i < |t| ==> t[i] == t'[i]
    ensures ScanOptions(t, udplen, pos) == ScanOptions(t', udplen, pos)
    decreases if pos < udplen then udplen - pos else 0
  {
    if pos < udplen && pos + DHCPV6_OPT_LEN <= |t| {
      StepReadsOnlyAhead(t, t', pos);
      match OptionStep(t, pos)
      case Stop(_, _) =>
      case Next(_, next) => ScanReadsOnlyAhead(t, t', udplen, next);
    }
  }

  /**
    An option whose code is not IA_PD is skipped without its body being read:
    whatever its `length` body octets hold, the walk prints and ends the same.
   */
  lemma SkippedPayloadIgnored(t: seq<byte>, t': seq<byte>, udplen: nat, pos: nat)
    requires pos < udplen && pos + DHCPV6_OPT_LEN <= |t| && |t'| == |t|
    requires OptionHeaderAt(t, pos).code != DHCPV6_OPT_IA_PD
    requires forall i :: pos <= i < |t| && !(pos + DHCPV6_OPT_LEN <= i < After(Visit(pos, OptionHeaderAt(t, pos)))) ==>
      t'[i] == t[i]
    ensures ScanOptions(t', udplen, pos) == ScanOptions(t, udplen, pos)
  {
    var h := OptionHeaderAt(t, pos);
    var next := After(Visit(pos, h));
    assert t'[pos] == t[pos] && t'[pos + 1] == t[pos + 1] && t'[pos + 2] == t[pos + 2] && t'[pos + 3] == t[pos + 3];
    assert OptionHeaderAt(t', pos) == h;
    assert OptionStep(t', pos) == OptionStep(t, pos) == Next([FoundOption(h.code, h.length)], next);
    ScanReadsOnlyAhead(t, t', udplen, next);
  }

  // ---------------------------------------------------------------------------
  // IA_PD
  // ---------------------------------------------------------------------------

  /**
    The inner loop prints exactly the first `n` octets of the prefix: two
    prefixes print the same records for `n` octets if and only if they agree
    on their first `n` octets, and the records for fewer octets are the start
    of those for more.
   */
  lemma PrintedOctetsDetermineLeadingOctets(prefix: In6Addr, other: In6Addr, m: nat, n: nat)
    requires m <= n <= IN6_ADDR_LEN
    ensures PrefixBytes(prefix, n) == PrefixBytes(other, n) <==> prefix[..n] == other[..n]
    ensures PrefixBytes(prefix, m) <= PrefixBytes(prefix, n)
  {
    if PrefixBytes(prefix, n) == PrefixBytes(other, n) {
      forall i | 0 <= i < n
        ensures prefix[i] == other[i]
      {
        assert PrefixBytes(prefix, n)[i] == PrefixBytes(other, n)[i];
      }
      assert prefix[..n] == other[..n];
    } else {
      var i :| 0 <= i < n && PrefixBytes(prefix, n)[i] != PrefixBytes(other, n)[i];
      assert prefix[..n][i] != other[..n][i];
    }
  }

  /**
    An IA_PD option whose body holds an encoded `dhcp6_ia_pd` prints its
    prefix length, then octets 0 .. prefixLength / 8 - 1 of its prefix, then
    the closing record, and the cursor moves past the option's declared
    length. The inner loop would index the 16-octet prefix at 16 or beyond
    exactly when the prefix length is 136 or more; the walk stops there.
   */
  lemma IaPdOptionDecoded(t: seq<byte>, pos: nat, x: IaPd)
    requires pos + DHCPV6_OPT_LEN + IA_PD_SIZE <= |t|
    requires OptionHeaderAt(t, pos).code == DHCPV6_OPT_IA_PD
    requires t[pos + DHCPV6_OPT_LEN..pos + DHCPV6_OPT_LEN + IA_PD_SIZE] == EncodeIaPd(x)
    ensures OptionStep(t, pos).Stop? <==> x.prefixLength >= 136
    ensures var h := OptionHeaderAt(t, pos);
      var head := [FoundOption(h.code, h.length), PrefixDelegation, DelegatedPrefixLength(x.prefixLength), PrefixStart];
      OptionStep(t, pos) ==
        if x.prefixLength / 8 <= IN6_ADDR_LEN then
          Next(head + PrefixBytes(x.prefix, x.prefixLength / 8) + [PrefixEnd(x.prefixLength)],
               pos + DHCPV6_OPT_LEN + h.length)
        else
          Stop(head + PrefixBytes(x.prefix, IN6_ADDR_LEN), Fault(PrefixIndex(IN6_ADDR_LEN)))
  {
    IaPdDecodesEncoded(t, pos + DHCPV6_OPT_LEN, x);
    var h := OptionHeaderAt(t, pos);
    assert [FoundOption(h.code, h.length)] + [PrefixDelegation, DelegatedPrefixLength(x.prefixLength), PrefixStart]
        == [FoundOption(h.code, h.length), PrefixDelegation, DelegatedPrefixLength(x.prefixLength), PrefixStart];
  }

  // ---------------------------------------------------------------------------
  // A Reply delegating 2001:db8:1::/48
  // ---------------------------------------------------------------------------

  const ExamplePrefix: In6Addr := [0x20, 0x01, 0x0d, 0xb8, 0x00, 0x01, 0, 0, 0, 0, 0, 0, 0, 0, 0, 0]

  /** IA_PD with IAID 1, T1 3600, T2 5400 and one IA Prefix option (code 26, length 25). */
  const ExampleIaPd: IaPd := IaPd(1, 3600, 5400, 26, 25, 3600, 7200, 48, ExamplePrefix)

  /**
    UDP header (547 to 546, length 57), DHCPv6 header of a Reply, and one
    IA_PD option of length 41.
   */
  function ExampleTransport(): (t: seq<byte>) {
    [0x02, 0x23, 0x02, 0x22, 0x00, 57, 0x00, 0x00]
    + [DHCPV6_MSG_REPLY, 0x12, 0x34, 0x56]
    + EncodeOptionHeader(OptionHeader(DHCPV6_OPT_IA_PD, 41))
    + EncodeIaPd(ExampleIaPd)
  }

  /** Where the example's fields sit. */
  lemma ExampleLayout()
    ensures var t := ExampleTransport();
      && |t| == 57 && IsServerReply(Packet(ETH_P_IPV6, IPPROTO_UDP, t)) && Be16(t, 4) == 57
      && OptionHeaderAt(t, 12) == OptionHeader(DHCPV6_OPT_IA_PD, 41)
      && t[16..57] == EncodeIaPd(ExampleIaPd)
  {
    var t := ExampleTransport();
    assert t[..8] == [0x02, 0x23, 0x02, 0x22, 0x00, 57, 0x00, 0x00];
    assert t[12..16] == EncodeOptionHeader(OptionHeader(DHCPV6_OPT_IA_PD, 41));
    OptionHeaderOfEncoded(t, 12, OptionHeader(DHCPV6_OPT_IA_PD, 41));
  }

  /** The records the example's IA_PD option produces. */
  const ExampleRecords: seq<LogRecord> :=
    [FoundOption(DHCPV6_OPT_IA_PD, 41), PrefixDelegation, DelegatedPrefixLength(48), PrefixStart,
     PrefixByte(0x20), PrefixByte(0x01), PrefixByte(0x0d), PrefixByte(0xb8), PrefixByte(0x00),
     PrefixByte(0x01), PrefixEnd(48)]

  /** The IA_PD option of the example prints the six whole octets of the /48 and moves the cursor to its end. */
  lemma ExampleStep()
    ensures OptionStep(ExampleTransport(), 12) == Next(ExampleRecords, 57)
  {
    var t := ExampleTransport();
    ExampleLayout();
    IaPdOptionDecoded(t, 12, ExampleIaPd);
    ExamplePrefixBytes();
  }

  /** The prefix octets printed for a /48 are the first six of the address. */
  lemma ExamplePrefixBytes()
    ensures [FoundOption(DHCPV6_OPT_IA_PD, 41), PrefixDelegation, DelegatedPrefixLength(48), PrefixStart]
      + PrefixBytes(ExamplePrefix, 6) + [PrefixEnd(48)] == ExampleRecords
  {
    assert PrefixBytes(ExamplePrefix, 6)
        == [PrefixByte(0x20), PrefixByte(0x01), PrefixByte(0x0d), PrefixByte(0xb8), PrefixByte(0x00), PrefixByte(0x01)];
  }

  /** The example's option walk: one IA_PD, then the cursor reaches the UDP length. */
  lemma ExampleScan()
    ensures ScanOptions(ExampleTransport(), 57, 12) == ScanResult(ExampleRecords, OptionsDone)
  {
    var t := ExampleTransport();
    ExampleLayout();
    ExampleStep();
    assert ScanOptions(t, 57, 57) == ScanResult([], OptionsDone);
    assert ExampleRecords + [] == ExampleRecords;
  }

  /** The hook prints the six whole octets of the /48 and finishes the option list. */
  lemma ExampleReplyDelegatesPrefix()
    ensures var r := Handle(Packet(ETH_P_IPV6, IPPROTO_UDP, ExampleTransport()));
      && r.exit == OptionsDone
      && r.log == ReplyGateLog + ExampleRecords + [EndOfOptions]
  {
    ExampleLayout();
    ExampleScan();
    GateAdmits(Packet(ETH_P_IPV6, IPPROTO_UDP, ExampleTransport()));
  }
}
