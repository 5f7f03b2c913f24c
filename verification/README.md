# DHCPv6 prefix-delegation hook

`dhcp6-hook.c` is a Linux kernel module. It registers a netfilter callback,
`dhcp6_hook_input_handle`, on locally delivered IPv6 traffic. The callback
only observes packets: on every path it returns NF_ACCEPT.

For a DHCPv6 Reply sent from server port 547 to client port 546 over UDP,
the callback walks the option list and prints each option's code and length.
For each IA_PD option (option 25, section 9 of RFC 3633) it prints the
delegated prefix length and the whole octets of the delegated prefix. It
reads these fields by overlaying the packed `dhcp6_ia_pd` layout on the
option body. That layout is the IA_PD fixed fields followed directly by one
IA Prefix option (section 10 of RFC 3633).

The model has four modules:

- `Bytes` (bytes.dfy) holds octets and big-endian 16/32-bit fields, with
  their encoders.
- `Dhcp6Layout` (layout.dfy) holds the wire constants and the packed
  structures `dhcp6_option_hdr` and `dhcp6_ia_pd`, each with an encoder and
  the decoder the hook uses.
- `Dhcp6Hook` (hook.dfy) models the callback twice:
  - `Handle`, `ScanOptions` and `OptionStep` are the specification, written
    as functions of the packet.
  - `HandleInput`, `WalkOptions`, `HandleOption` and `PrintPrefix` are the
    C's own step-by-step code over an `array<byte>`, with its two loops.
    Each is proved equal to its specification function.
- `Dhcp6HookProperties` (properties.dfy) proves what the callback promises:
  - which packets reach the option loop;
  - how the cursor moves and that it never wraps;
  - that a skipped option's body is never read;
  - what an encoded IA_PD produces;
  - one complete worked Reply.

A packet is modelled as three things: its EtherType (`skb->protocol`), its
IPv6 next-header value, and the octets from the UDP header onward
(`skb_transport_header`). Each `printk` becomes one `LogRecord` that keeps
the printed arguments but not the format string.

The C reads the packet and the prefix without any bounds check. The model
guards every such read instead. A read past the transport octets stops the
model with a `Fault` exit naming that read (the verdict is still Accept).
So does an index into the 16-octet prefix at 16 or beyond, which happens
exactly when the prefix length is 136 or more. In the C, these cases read
memory outside the packet or the local `in6_addr`.

## Model

| member | source | states |
|---|---|---|
| Bytes.EncodeBe16 | dhcp6-hook.c:133-135 | the two network-order octets of a 16-bit value recombine to that value |
| Bytes.EncodeBe32 | dhcp6-hook.c:91-97 | the four network-order octets of a 32-bit field recombine to that value |
| Bytes.EncodedBe16 | dhcp6-hook.c:133-135 | ntohs of a field, encoded again, gives back the two octets it was read from |
| Bytes.Be16OfEncoded | dhcp6-hook.c:150-151 | ntohs of two encoded octets gives back the encoded value |
| Dhcp6Layout.EncodeOptionHeader | dhcp6-hook.c:72-76 | a packed option header is 4 octets |
| Dhcp6Layout.EncodedOptionHeader | dhcp6-hook.c:149-151 | the code and length read at the cursor, encoded again, are the 4 octets at the cursor |
| Dhcp6Layout.OptionHeaderOfEncoded | dhcp6-hook.c:149-151 | reading an encoded option header gives back its code and length |
| Dhcp6Layout.EncodeIaPd | dhcp6-hook.c:89-100 | the packed IA_PD layout is 41 octets |
| Dhcp6Layout.IaPdDecodesEncoded | dhcp6-hook.c:156-158 | overlaying the layout on an encoded IA_PD yields its prefix length and its prefix, whatever the other fields and the nested option's code hold |
| Dhcp6Hook.OptionStep | dhcp6-hook.c:149-170 | one option's records start with its header record, are all option records, and contain no other header record; an option that is not IA_PD prints only its header and moves on; the cursor moves past the header and the declared length; the walk stops at an IA_PD exactly when its 41-octet layout does not fit in the packet (fault on the layout read) or when its prefix length divided by 8 exceeds 16 (fault on prefix index 16), and for no other reason |
| Dhcp6Hook.ScanOptions | dhcp6-hook.c:146-171 | the option loop ends at the end of the option list or on an out-of-bounds read, and prints only option records; an option-header fault is at a cursor below udplen whose 4 octets do not fit in the packet; an IA_PD-layout fault follows an IA_PD header at a cursor below udplen and its 41 octets do not fit; the only other fault is prefix index 16 |
| Dhcp6Hook.Handle | dhcp6-hook.c:126-173 | every path of the callback returns NF_ACCEPT |
| Dhcp6Hook.HandleInput | dhcp6-hook.c:102-174 | the callback's checks and loops produce exactly the verdict, records and exit of `Handle` |
| Dhcp6Hook.WalkOptions | dhcp6-hook.c:146-171 | the cursor loop produces exactly the records and exit of `ScanOptions` from cursor 12 with the UDP length as its bound |
| Dhcp6Hook.HandleOption | dhcp6-hook.c:149-170 | the loop body produces exactly `OptionStep` at the cursor |
| Dhcp6Hook.PrintPrefix | dhcp6-hook.c:160-168 | the inner loop prints `PrefixBytes` of the prefix for nb octets (octets 0 .. nb-1), and completes exactly when nb is at most 16; otherwise it stops after the 16 octets that exist |
| Dhcp6HookProperties.GateExits | dhcp6-hook.c:126-144 | each early return (not IPv6, not UDP, source port not 547, destination port not 546, message type not Reply) happens exactly when its condition holds, after the earlier checks have passed; the model stops on the UDP header read exactly when an IPv6/UDP packet has fewer than 6 transport octets, and on the message-type read exactly when the ports match and there are fewer than 9 |
| Dhcp6HookProperties.GateRejects | dhcp6-hook.c:126-144 | a packet that is not a Reply from 547 to 546 over IPv6/UDP gets at most four gate records and no option record |
| Dhcp6HookProperties.GateAdmits | dhcp6-hook.c:139-172 | a Reply's log is the five gate records, then the option loop's records from cursor 12 bounded by the UDP length, then the end-of-list record if the loop finished |
| Dhcp6HookProperties.GateDecidesScan | dhcp6-hook.c:137-147 | the option loop is entered exactly for Replies from 547 to 546 over IPv6/UDP; no other packet has an option reported |
| Dhcp6HookProperties.OneHeaderPerOption | dhcp6-hook.c:149-152 | handling one option reports exactly one header, the one at the cursor |
| Dhcp6HookProperties.WalkCursorRule | dhcp6-hook.c:146-170 | the cursor starts at the given position, stays below udplen, moves by 4 plus the declared length whatever the option code, strictly increases, and ends at the first position not below udplen or without room for a header |
| Dhcp6HookProperties.CursorNeverWraps | dhcp6-hook.c:121-170 | the 32-bit `current_pos` never wraps: each next cursor is below 2^32 |
| Dhcp6HookProperties.ScanFollowsWalk | dhcp6-hook.c:146-171 | the headers the loop reports are those at the cursor positions, in order: all of them when it finishes, a prefix of them when a read faults |
| Dhcp6HookProperties.ReportedOptionsFollowCursor | dhcp6-hook.c:145-172 | for a Reply, the headers in the whole log are the ones at the cursor positions from 12 with the UDP length as bound |
| Dhcp6HookProperties.StepReadsOnlyAhead | dhcp6-hook.c:149-158 | handling an option reads no octet before the cursor |
| Dhcp6HookProperties.ScanReadsOnlyAhead | dhcp6-hook.c:146-171 | the loop from a cursor never reads octets before it |
| Dhcp6HookProperties.SkippedPayloadIgnored | dhcp6-hook.c:153-170 | the body of an option that is not IA_PD is never read: changing it changes neither the records nor the exit |
| Dhcp6HookProperties.PrintedOctetsDetermineLeadingOctets | dhcp6-hook.c:160-167 | the inner loop prints the first n octets of the prefix and nothing else: two prefixes print the same records for n octets exactly when they agree on their first n octets, and fewer octets print a prefix of the records for more |
| Dhcp6HookProperties.IaPdOptionDecoded | dhcp6-hook.c:153-170 | an encoded IA_PD prints its prefix length, octets 0 .. len/8-1 of its prefix and the closing record, and the cursor moves past the option; the inner loop overruns the prefix exactly when the prefix length is 136 or more |
| Dhcp6HookProperties.ExampleScan | dhcp6-hook.c:146-171 | a single IA_PD delegating 2001:db8:1::/48 prints six prefix octets and the loop finishes |
| Dhcp6HookProperties.ExampleReplyDelegatesPrefix | dhcp6-hook.c:126-173 | a whole Reply delegating 2001:db8:1::/48 prints the gate records, the option record, the prefix length 48, the octets 20 01 0d b8 00 01 and the end of the list |

## Left out

- Module registration, `dhcp6_hook_init` and `dhcp6_hook_end` (dhcp6-hook.c:176-200), are left out: they only call the kernel's netfilter registration and print.
- Most of `struct sk_buff` is left out. Only `skb->protocol`, `ipv6_hdr(skb)->nexthdr` and the octets from the transport header onward are modelled, as plain parameters. The IPv6 header is not parsed beyond its next-header value, so extension headers are not modelled (the C does not handle them either).
- printk format strings and log levels are left out; each record keeps only the printed values.
- The printk at dhcp6-hook.c:142 is left out. It prints the address of a local variable, which depends on the kernel stack and not on the packet.
- Hook parameters the callback never uses (`ops`, `in`, `out`, `okfn`) are left out, as is the unused local `nskb`.
- The constants for other message types and option codes (dhcp6-hook.c:27-63) are left out. So is `struct dhcp6_ia_na` (dhcp6-hook.c:77-87). The callback uses none of them.
- Out-of-bounds reads are left out as memory behaviour. The C's unchecked reads of the UDP header, the message type, an option header, the IA_PD layout and `dpref.s6_addr[i]` for i ≥ 16 are not modelled as reads; the model ends at them with a `Fault` exit instead of reading arbitrary memory and going on.
- The IA_PD branch is decoded exactly as the packed layout overlays it. The option length is not compared with 41, and the nested option is not checked to be an IA Prefix option (code 26), because the C checks neither. Only the first IA Prefix option of an IA_PD is printed, as in the C.
- MAP (S46) options, prefix validation and nested-container decoding are left out because the code does not implement them.
- Concurrency and the kernel's calling context are left out. The callback keeps no state between packets.
