/**
  The netfilter callback `dhcp6_hook_input_handle`: a gate that keeps only
  DHCPv6 Reply messages sent from server port 547 to client port 546 over
  IPv6/UDP, then a walk over the option list that reports every option
  header and decodes the delegated prefix of each IA_PD option.

  The packet is its EtherType, its IPv6 next-header value and the octets of
  its transport part, UDP header first. The hook only observes the packet:
  its verdict is NF_ACCEPT on every path. What it prints becomes the
  returned sequence of log records, one record per printk.

  The C reads the packet without bounds checks. Every such read is guarded
  here: where the C would read outside the transport octets, or index the
  16-octet prefix at 16 or beyond, the model stops with a `Fault` exit that
  names the read.

  `Handle` and `ScanOptions` are the specification; `HandleInput` is the
  callback's own step-by-step code, proved equal to `Handle`.
 */
module Dhcp6Hook {
  import opened Bytes
  import opened Dhcp6Layout

  datatype Packet = Packet(protocol: u16, nextHeader: byte, transport: seq<byte>)

  /** Netfilter verdicts; the hook only ever returns NF_ACCEPT. */
  datatype Verdict = Accept | Drop

  /** One record per printk of the callback, arguments kept, formats dropped. */
  datatype LogRecord =
    | ReceivedIpv6Udp
    | Ports(source: u16, dest: u16)
    | ServerResponse
    | MessageType(messageType: byte)
    | ReplyMessage
    | FoundOption(code: u16, length: u16)
    | PrefixDelegation
    | DelegatedPrefixLength(prefixLength: byte)
    | PrefixStart
    | PrefixByte(octet: byte)
    | PrefixEnd(prefixLength: byte)
    | EndOfOptions
  {
    /** The records printed while an option is being handled. */
    predicate IsOptionRecord() {
      FoundOption? || PrefixDelegation? || DelegatedPrefixLength? || PrefixStart? || PrefixByte? || PrefixEnd?
    }
  }

  /** A read the C performs without checking it is in bounds. */
  datatype OverRead =
    | UdpHeader
    | MessageTypeOctet
    | OptionHeaderRead(at: nat)
    | IaPdBody(at: nat)
    | PrefixIndex(index: nat)

  /** How the callback ended: one tag per return statement, plus the over-reads. */
  datatype Exit =
    | NotIpv6
    | NotUdp
    | NotFromServer
    | NotToClient
    | NotReply
    | OptionsDone
    | Fault(read: OverRead)

  datatype Outcome = Outcome(verdict: Verdict, log: seq<LogRecord>, exit: Exit)

  /** What the option walk prints and how it ends. */
  datatype ScanResult = ScanResult(log: seq<LogRecord>, exit: Exit)

  /** The packets whose options are scanned: IPv6/UDP from port 547 to port 546 carrying a Reply. */
  predicate IsServerReply(p: Packet) {
    var t := p.transport;
    && p.protocol == ETH_P_IPV6
    && p.nextHeader == IPPROTO_UDP
    && |t| >= UDP_HDR_LEN + 1
    && Be16(t, 0) == DHCPV6_SERVER_PORT
    && Be16(t, 2) == DHCPV6_CLIENT_PORT
    && t[UDP_HDR_LEN] == DHCPV6_MSG_REPLY
  }

  /** The records printed for the first `n` octets of a delegated prefix. */
  function PrefixBytes(prefix: In6Addr, n: nat): (r: seq<LogRecord>)
    requires n <= IN6_ADDR_LEN
  {
    seq(n, i requires 0 <= i < n => PrefixByte(prefix[i]))
  }

  /** The effect of handling one option: go on at cursor `next`, or stop. */
  datatype Step =
    | Next(records: seq<LogRecord>, next: nat)
    | Stop(records: seq<LogRecord>, exit: Exit)

  /**
    One iteration of the option loop at cursor `pos`: print the option header,
    and for an IA_PD print the prefix length and the whole octets of the
    prefix, which the packed layout places right after the option header.
    Every option that is handled to its end moves the cursor past its header
    and its declared length, IA_PD included; any other code is not looked
    into.
   */
  function OptionStep(t: seq<byte>, pos: nat): (r: Step)
    requires pos + DHCPV6_OPT_LEN <= |t|
    ensures |r.records| > 0
    ensures r.records[0] == FoundOption(OptionHeaderAt(t, pos).code, OptionHeaderAt(t, pos).length)
    ensures forall k :: 0 <= k < |r.records| ==> r.records[k].IsOptionRecord()
    ensures r.Next? ==> r.next == pos + DHCPV6_OPT_LEN + OptionHeaderAt(t, pos).length
    ensures r.Stop? ==> r.exit == Fault(IaPdBody(pos + DHCPV6_HDR_LEN)) || r.exit == Fault(PrefixIndex(IN6_ADDR_LEN))
    ensures r.Stop? && r.exit == Fault(IaPdBody(pos + DHCPV6_HDR_LEN)) <==>
      OptionHeaderAt(t, pos).code == DHCPV6_OPT_IA_PD && pos + DHCPV6_HDR_LEN + IA_PD_SIZE > |t|
    ensures r.Stop? && r.exit == Fault(PrefixIndex(IN6_ADDR_LEN)) <==>
      && OptionHeaderAt(t, pos).code == DHCPV6_OPT_IA_PD && pos + DHCPV6_HDR_LEN + IA_PD_SIZE <= |t|
      && IaPdPrefixLength(t, pos + DHCPV6_HDR_LEN) / 8 > IN6_ADDR_LEN
    ensures OptionHeaderAt(t, pos).code != DHCPV6_OPT_IA_PD ==> r.Next? && |r.records| == 1
    ensures forall k :: 1 <= k < |r.records| ==> !r.records[k].FoundOption?
  {
    var h := OptionHeaderAt(t, pos);
    var found := [FoundOption(h.code, h.length)];
    var next := pos + DHCPV6_OPT_LEN + h.length;
    if h.code != DHCPV6_OPT_IA_PD then Next(found, next)
    else
      var body := pos + DHCPV6_HDR_LEN;
      if body + IA_PD_SIZE > |t| then Stop(found + [PrefixDelegation], Fault(IaPdBody(body)))
      else
        var prefixLength := IaPdPrefixLength(t, body);
        var prefix := IaPdPrefix(t, body);
        var nb := prefixLength / 8;
        var head := found + [PrefixDelegation, DelegatedPrefixLength(prefixLength), PrefixStart];
        if nb > IN6_ADDR_LEN then Stop(head + PrefixBytes(prefix, IN6_ADDR_LEN), Fault(PrefixIndex(IN6_ADDR_LEN)))
        else Next(head + PrefixBytes(prefix, nb) + [PrefixEnd(prefixLength)], next)
  }

  /**
    The option walk from cursor `pos` in the transport octets `t`, with
    `udplen` the UDP length field: while the cursor is below `udplen`, handle
    the option at the cursor.
   */
  function ScanOptions(t: seq<byte>, udplen: nat, pos: nat): (r: ScanResult)
    decreases if pos < udplen then udplen - pos else 0
    ensures r.exit.OptionsDone? || r.exit.Fault?
    ensures r.exit.Fault? ==>
      r.exit.read.OptionHeaderRead? || r.exit.read.IaPdBody? || r.exit.read == PrefixIndex(IN6_ADDR_LEN)
    ensures r.exit.Fault? && r.exit.read.OptionHeaderRead? ==>
      pos <= r.exit.read.at < udplen && r.exit.read.at + DHCPV6_OPT_LEN > |t|
    ensures r.exit.Fault? && r.exit.read.IaPdBody? ==>
      var q := r.exit.read.at;
      && pos + DHCPV6_HDR_LEN <= q <= |t| && q - DHCPV6_HDR_LEN < udplen && q + IA_PD_SIZE > |t|
      && OptionHeaderAt(t, q - DHCPV6_HDR_LEN).code == DHCPV6_OPT_IA_PD
    ensures forall k :: 0 <= k < |r.log| ==> r.log[k].IsOptionRecord()
  {
    if pos >= udplen then ScanResult([], OptionsDone)
    else if pos + DHCPV6_OPT_LEN > |t| then ScanResult([], Fault(OptionHeaderRead(pos)))
    else match OptionStep(t, pos)
      case Stop(records, exit) => ScanResult(records, exit)
      case Next(records, next) =>
        var rest := ScanOptions(t, udplen, next);
        ScanResult(records + rest.log, rest.exit)
  }

  /** The whole callback, as a function of the packet. */
  function Handle(p: Packet): (r: Outcome)
    ensures r.verdict == Accept

  {
    var t := p.transport;
    if p.protocol != ETH_P_IPV6 then Outcome(Accept, [], NotIpv6)
    else if p.nextHeader != IPPROTO_UDP then Outcome(Accept, [], NotUdp)
    else
      var udp := [ReceivedIpv6Udp];
      if |t| < 6 then Outcome(Accept, udp, Fault(UdpHeader))
      else
        var sourcePort, destPort, udplen := Be16(t, 0), Be16(t, 2), Be16(t, 4);
        var ports := udp + [Ports(sourcePort, destPort)];
        if sourcePort != DHCPV6_SERVER_PORT then Outcome(Accept, ports, NotFromServer)
        else if destPort != DHCPV6_CLIENT_PORT then Outcome(Accept, ports, NotToClient)
        else
          var server := ports + [ServerResponse];
          if |t| < UDP_HDR_LEN + 1 then Outcome(Accept, server, Fault(MessageTypeOctet))
          else
            var messageType := t[UDP_HDR_LEN];
            var gate := server + [MessageType(messageType)];
            if messageType != DHCPV6_MSG_REPLY then Outcome(Accept, gate, NotReply)
            else
              var scan := ScanOptions(t, udplen, UDP_HDR_LEN + DHCPV6_HDR_LEN);
              var scanned := gate + [ReplyMessage] + scan.log;
              if scan.exit.OptionsDone? then Outcome(Accept, scanned + [EndOfOptions], scan.exit)
              else Outcome(Accept, scanned, scan.exit)
  }

  /**
    The callback as the C runs it: each check in turn, then a cursor loop over
    the options with an inner loop printing the whole octets of each delegated
    prefix.
   */
  method HandleInput(protocol: u16, nextHeader: byte, skb: array<byte>)
    returns (verdict: Verdict, log: seq<LogRecord>, exit: Exit)
    ensures Outcome(verdict, log, exit) == Handle(Packet(protocol, nextHeader, skb[..]))
  {
    verdict, log := Accept, [];
    if protocol != ETH_P_IPV6 { exit := NotIpv6; return; }
    if nextHeader != IPPROTO_UDP { exit := NotUdp; return; }
    log := [ReceivedIpv6Udp];
    if skb.Length < 6 { exit := Fault(UdpHeader); return; }
    var sourcePort := Be16(skb[..], 0);
    var destPort := Be16(skb[..], 2);
    var udplen := Be16(skb[..], 4);
    log := log + [Ports(sourcePort, destPort)];
    if sourcePort != DHCPV6_SERVER_PORT { exit := NotFromServer; return; }
    if destPort != DHCPV6_CLIENT_PORT { exit := NotToClient; return; }
    log := log + [ServerResponse];
    if skb.Length < UDP_HDR_LEN + 1 { exit := Fault(MessageTypeOctet); return; }
    var messageType := skb[UDP_HDR_LEN];
    log := log + [MessageType(messageType)];
    if messageType != DHCPV6_MSG_REPLY { exit := NotReply; return; }
    log := log + [ReplyMessage];

    var scan, scanExit := WalkOptions(skb, udplen);
    log := log + scan;
    if scanExit.OptionsDone? { log := log + [EndOfOptions]; }
    exit := scanExit;
  }

  /**
    The option loop of the callback: the cursor starts after the UDP and
    DHCPv6 headers and moves on one option per iteration while it is below
    `udplen`.
   */
  method WalkOptions(skb: array<byte>, udplen: u16) returns (log: seq<LogRecord>, exit: Exit)
    ensures ScanResult(log, exit) == ScanOptions(skb[..], udplen, UDP_HDR_LEN + DHCPV6_HDR_LEN)
  {
    ghost var t := skb[..];
    ghost var whole := ScanOptions(t, udplen, UDP_HDR_LEN + DHCPV6_HDR_LEN);
    log := [];
    var currentPos := UDP_HDR_LEN + DHCPV6_HDR_LEN;
    while currentPos < udplen
      invariant log + ScanOptions(t, udplen, currentPos).log == whole.log
      invariant ScanOptions(t, udplen, currentPos).exit == whole.exit
      decreases udplen - currentPos
    {
      if currentPos + DHCPV6_OPT_LEN > skb.Length { exit := Fault(OptionHeaderRead(currentPos)); return; }
      var step := HandleOption(skb, currentPos);
      match step
      case Stop(records, stop) =>
        log, exit := log + records, stop;
        return;
      case Next(records, next) =>
        ghost var rest := ScanOptions(t, udplen, next);
        assert log + records + rest.log == log + (records + rest.log);
        log, currentPos := log + records, next;
    }
    exit := OptionsDone;
  }

  /**
    The body of the option loop: read the option header at `currentPos` and,
    for an IA_PD, overlay the packed layout on the option body, print the
    prefix length and the whole octets of the prefix.
   */
  method HandleOption(skb: array<byte>, currentPos: nat) returns (step: Step)
    requires currentPos + DHCPV6_OPT_LEN <= skb.Length
    ensures step == OptionStep(skb[..], currentPos)
  {
    var optionType := Be16(skb[..], currentPos);
    var optionLen := Be16(skb[..], currentPos + 2);
    var found := [FoundOption(optionType, optionLen)];
    var next := currentPos + DHCPV6_OPT_LEN + optionLen;
    if optionType != DHCPV6_OPT_IA_PD { return Next(found, next); }
    var body := currentPos + DHCPV6_HDR_LEN;
    if body + IA_PD_SIZE > skb.Length { return Stop(found + [PrefixDelegation], Fault(IaPdBody(body))); }
    var dprefLen := skb[body + IA_PD_PREFIX_LENGTH_OFFSET];
    var dpref: In6Addr := skb[body + IA_PD_PREFIX_OFFSET..body + IA_PD_SIZE];
    var head := found + [PrefixDelegation, DelegatedPrefixLength(dprefLen), PrefixStart];
    var octets, complete := PrintPrefix(dpref, dprefLen / 8);
    if !complete { return Stop(head + octets, Fault(PrefixIndex(IN6_ADDR_LEN))); }
    step := Next(head + octets + [PrefixEnd(dprefLen)], next);
  }

  /**
    The inner loop of the callback: print octet `i` of the delegated prefix
    for each `i` below `nb`. The prefix has 16 octets, so the loop stops with
    `complete` false when it reaches index 16.
   */
  method PrintPrefix(dpref: In6Addr, nb: nat) returns (log: seq<LogRecord>, complete: bool)
    ensures complete <==> nb <= IN6_ADDR_LEN
    ensures log == PrefixBytes(dpref, if complete then nb else IN6_ADDR_LEN)
  {
    log := [];
    var i := 0;
    while i < nb
      invariant i <= nb && i <= IN6_ADDR_LEN
      invariant log == PrefixBytes(dpref, i)
    {
      if i >= IN6_ADDR_LEN { return log, false; }
      log := log + [PrefixByte(dpref[i])];
      i := i + 1;
    }
    complete := true;
  }
}
