# flowRecorder — flow accounting core in Dafny

flowRecorder turns a sequence of captured Ethernet frames into a *flow
cache*: a dictionary from a flow key to a record of counters. The frames come
from a pcap file (`process_packets`) or from a live interface (`sniff`, with
`process_packet` called once per frame). The core has four parts:

- a **packet filter** that decides which frames are accounted;
- the **flow keys**: a digest of the source address, source port,
  destination address, destination port and protocol (the forward key), and
  of the same fields read from the other end (the reverse key);
- the **record builders** that create or extend a record;
- the **dispatch**, which works in one of two modes:
  - in unidirectional mode (`u`), each direction of a connection is its own
    flow;
  - in bidirectional mode (`b`), one record per connection holds combined
    (`BI_*`), forward (`F_*`) and backward (`B_*`) counters.

The project has these modules:

- `Packets`: decoded frames.
- `Classifier`: the two packet filters.
- `Text` and `FlowKeys`: the key texts and the 5-tuple keys.
- `FlowRecords`: record values and the builders on values.
- `Cache`: the `FlowCache` class, whose `flows` map the builder methods
  update in place, plus the one-packet steps `UniStep`/`BiStep` and the cache
  invariant.
- `Driver`:
  - the `process_packets`, `process_packet` and `sniff` loops, as methods;
  - the functions `Run` and `LiveRun`, the folds the loops are proved equal
    to.
- `Properties`: what whole runs compute.

A frame whose payload passes the filter but has no ports makes reading
`ip.data.sport` raise. Such a raise ends the run without a cache, which the
model writes as `Outcome.Aborted(position)`.

The two loops filter differently:

- Unlike the live callback (flowRecorder.py:273-275), the file loop
  (flowRecorder.py:168-181) does not skip IGMP. An IGMP packet reaches the
  key computation, has no ports and aborts the run.
- The live callback (flowRecorder.py:262-275) skips non-IPv4 frames, ICMP
  and IGMP, but not PIM or IPv6-in-IP, which abort a live session.
- The live path always accounts unidirectionally, whatever `--direction`
  says.

## Model

| member | source | states |
|---|---|---|
| Classifier.Classify | flowRecorder.py:154-181 | A frame is accepted exactly when it is IPv4 and its payload is not ICMP, PIM or IPv6-in-IP. It is rejected as non-IP exactly when it is not IPv4. IGMP is never a reason to reject. |
| Classifier.ClassifyLive | flowRecorder.py:262-275 | A frame is accepted exactly when it is IPv4 and its payload is neither ICMP nor IGMP. The only reasons to reject are non-IP, ICMP and IGMP. |
| Classifier.FiltersDisagreeOn | flowRecorder.py:169-181 | The file filter and the live filter disagree exactly on IPv4 packets carrying IGMP, PIM or IPv6-in-IP. |
| Text.DecimalText | flowRecorder.py:185 | The decimal rendering of a port or protocol number is non-empty, has only digits, and has no leading zero unless it is "0". |
| Text.DecimalRoundTrip | flowRecorder.py:185 | Reading the decimal text back gives the number. |
| Text.DecimalTextInjective | flowRecorder.py:185 | Different numbers have different decimal texts. |
| Text.Join | flowRecorder.py:185 | The joined text starts with the first field, and its length is the fields' total length plus one separator between each pair of neighbours. |
| Text.JoinAvoids | flowRecorder.py:185 | A character other than the separator that no field contains does not occur in the joined text. |
| Text.JoinInjective | flowRecorder.py:185 | Joining same-length field lists with a separator that none of the fields contains gives equal texts only for equal lists. |
| FlowKeys.Swap | flowRecorder.py:188-190 | The mirrored 5-tuple exchanges addresses and ports and keeps the protocol. |
| FlowKeys.SwapInvolutive | flowRecorder.py:188-190 | Mirroring twice gives the original tuple. |
| FlowKeys.FiveTupleOf | flowRecorder.py:184-186 | A tuple exists exactly when the payload carries ports. Its fields are the packet's addresses, ports and protocol. |
| FlowKeys.ForwardKey | flowRecorder.py:184-186 | `flow_id` is the tuple that the forward key text identifies: a tuple has the same forward text exactly when it equals this key. |
| FlowKeys.ReverseKey | flowRecorder.py:188-190 | `bwd_pkt_flow_id` has the packet's destination fields as its source fields and the reverse, with the same protocol. A tuple's forward text equals the packet's reverse text exactly when that tuple is this key. |
| FlowKeys.AddressText | flowRecorder.py:38 | `inet_to_str` of an IPv4 address: the four bytes in decimal, separated by dots. |
| FlowKeys.ForwardKeyText | flowRecorder.py:185 | The text hashed into `flow_id`: source address, source port, destination address, destination port and protocol, separated by single spaces. |
| FlowKeys.ReverseKeyText | flowRecorder.py:189 | The text hashed into `bwd_pkt_flow_id`: destination address and port, then source address and port, then protocol, separated by single spaces. |
| FlowKeys.AddressTextInjective | flowRecorder.py:28-40 | Different IPv4 addresses have different dotted-quad texts. |
| FlowKeys.ForwardKeyTextInjective | flowRecorder.py:184-186 | Two packets have the same forward key text exactly when their 5-tuples are equal. |
| FlowKeys.ReverseKeyTextMirrors | flowRecorder.py:188-190 | The reverse key text of a tuple is the forward key text of its mirror. |
| FlowKeys.KeysAgreeWithTexts | flowRecorder.py:184-190 | Keying by tuple decides equality as the texts do, for forward-against-forward and for reverse-against-forward lookups. |
| FlowKeys.ReverseKeyMatches | flowRecorder.py:188-190 | A packet's reverse key finds a record exactly when that record was created by the mirrored tuple. |
| FlowKeys.KeysCoincide | flowRecorder.py:184-190 | Forward and reverse keys are equal exactly when the tuple reads the same from both ends. |
| FlowRecords.Opened | flowRecorder.py:63-67 | Counters opened by one packet start and end at its time, last 0, and count that one packet and its length. |
| FlowRecords.Extended | flowRecorder.py:102-105 | Extended counters end at the packet's time and measure the duration from the unchanged start. They count one more packet and add its length. |
| FlowRecords.ExtendedBackward | flowRecorder.py:120-125 | Like Extended, except that a start of 0 (no reverse packet yet) becomes the packet's time. |
| FlowRecords.NewFlowRecord | flowRecorder.py:55-67 | A new unidirectional record holds the packet's tuple, starts and ends at its time, has duration 0, one packet and its length, and is valid. |
| FlowRecords.ExtendFlowRecord | flowRecorder.py:100-105 | Extending keeps the tuple and start, moves the end, adds one packet and the length, and keeps the record valid. |
| FlowRecords.NewBiflowRecord | flowRecorder.py:70-95 | A new bidirectional record has combined and forward counters opened by the packet, backward counters all zero, and the mirror key. It satisfies the record invariant. |
| FlowRecords.ExtendBiflowRecord | flowRecorder.py:108-125 | The combined counters always advance. The forward counters advance only for a forward packet, the backward ones only for a backward packet, and the other side is unchanged. The record invariant (BI = F + B) is kept. |
| FlowRecords.BackwardStartSentinel | flowRecorder.py:120-121 | Once the backward start is nonzero, no packet changes it. The first reverse packet of a valid record sets it to that packet's time, which sticks when it is nonzero. |
| Cache.UniStep | flowRecorder.py:192-196 | In u mode, the key set gains exactly the packet's forward key, every other entry is unchanged, and the record there belongs to the packet's tuple (a new record) or keeps its tuple (an extended one). All records stay unidirectional. |
| Cache.BiStep | flowRecorder.py:197-203 | In b mode, a packet whose forward or reverse key is present adds no key, and one with neither adds its forward key. Only the entries under those two keys can change, and only the reverse key's when the forward key is absent. All records stay bidirectional. |
| Cache.UniStepKeepsInvariant | flowRecorder.py:192-196 | A u-mode step keeps every record valid and stored under its own tuple's forward key. |
| Cache.BiExtendKeepsWellKeyed | flowRecorder.py:108-125 | Extending a well-keyed bidirectional record in either direction keeps it well keyed. |
| Cache.BiExtendKeepsInvariant | flowRecorder.py:198-201 | Extending an existing record keeps the cache invariant: valid records, the mirror key being the reverse key, one record per connection. |
| Cache.BiCreateKeepsInvariant | flowRecorder.py:202-203 | Creating a record when neither key is present keeps the cache invariant. |
| Cache.BiStepKeepsInvariant | flowRecorder.py:197-203 | A b-mode step keeps the cache invariant. |
| Cache.FlowCache.constructor | flowRecorder.py:146 | A new flow cache is empty. |
| Cache.FlowCache.IsFlowRecordPresent | flowRecorder.py:44-50 | True exactly when the key has a record. |
| Cache.FlowCache.CreateFlowRecord | flowRecorder.py:55-67 | Stores a new unidirectional record under the key and leaves every other entry alone. |
| Cache.FlowCache.UpdateFlowRecord | flowRecorder.py:100-105 | Replaces the record under the key by its extension and leaves every other entry alone. |
| Cache.FlowCache.CreateBiflowRecord | flowRecorder.py:70-95 | Stores a new bidirectional record, holding the mirror key, under the key and leaves every other entry alone. |
| Cache.FlowCache.UpdateBiflowRecord | flowRecorder.py:108-125 | Replaces the record under the key by its extension in the given direction and leaves every other entry alone. |
| Driver.Step | flowRecorder.py:152-203 | One frame of the file loop raises exactly when it is accepted and has no ports. A rejected frame leaves the cache as it was. The result keeps the mode's record shape. |
| Driver.Raises | flowRecorder.py:184-186 | A file-loop frame raises exactly when the filter accepts it and it has no 5-tuple. Only IGMP and unported payloads get that far. |
| Driver.RaisesLive | flowRecorder.py:278-280 | A live frame raises exactly when the live filter accepts it and it has no 5-tuple. Only PIM, IPv6-in-IP and unported payloads get that far. |
| Driver.Advance | flowRecorder.py:149-203 | An aborted run stays aborted. A completed run aborts at this frame exactly when the frame raises. |
| Driver.Run | flowRecorder.py:138-205 | A completed run holds records of the mode's shape. An aborted run names a frame that raises. |
| Driver.LiveStep | flowRecorder.py:259-289 | One live frame raises exactly when the live filter accepts it and it has no ports. A rejected frame leaves the cache as it was. |
| Driver.LiveAdvance | flowRecorder.py:259-289 | The live counterpart of Advance. |
| Driver.LiveRun | flowRecorder.py:208-241 | A live session over the captured frames: its records are unidirectional, and an abort names a raising frame. |
| Driver.AbortIsFinal | flowRecorder.py:149-205 | Once a file run has aborted, later frames do not change its outcome. |
| Driver.LiveAbortIsFinal | flowRecorder.py:224-229 | Once a live session has aborted, later frames do not change its outcome. |
| Driver.ProcessPackets | flowRecorder.py:138-205 | The loop over the frames, with the in-place cache and the mode's lookup-then-create-or-update dispatch, computes exactly Run. |
| Driver.ProcessPacket | flowRecorder.py:245-289 | It raises exactly when the live filter accepts a frame without ports, and then the cache is unchanged. Otherwise the cache becomes the live step of the old cache. |
| Driver.Sniff | flowRecorder.py:208-241 | Feeding every captured frame through ProcessPacket into a fresh cache computes exactly LiveRun. |
| Driver.ModeOf | flowRecorder.py:314-323 | Bidirectional exactly when the option is "b". "u", any other value and a missing option give unidirectional. |
| Properties.RejectedFrameChangesNothing | flowRecorder.py:154-181 | A frame the file filter rejects leaves the run's outcome unchanged. |
| Properties.FilterIsTransparent | flowRecorder.py:154-181 | Running all frames and running only the accepted frames complete in the same cases and with the same cache. |
| Properties.RunKeepsInvariant | flowRecorder.py:138-205 | Every completed run's cache satisfies the cache invariant of its mode. |
| Properties.BiflowCountersAdd | flowRecorder.py:108-125 | In every b-mode cache, each record's combined packet and octet counts are the sums of its forward and backward ones. No connection is stored under both of its keys. |
| Properties.RunAbortsAtFirstRaise | flowRecorder.py:184-190 | A run aborts exactly when some frame raises, and it names the first such frame. |
| Properties.UniRecordSummarizes | flowRecorder.py:192-196 | In u mode, a key has a record exactly when some accepted packet has it as forward key. That record counts exactly those packets and their octets, from the first packet's time to the last one's, and its duration is the difference. |
| Properties.OneTupleCounting | flowRecorder.py:192-196 | N accepted packets of one 5-tuple give one record with N packets, the sum of their lengths, and the first and last packets' times as start and end. |
| Properties.BiRecordSummarizes | flowRecorder.py:197-203 | In b mode, a connection first seen as tuple t has one record under t's forward key and none under the reverse key. Its combined, forward and backward counters count the packets from both ends, from each end, and their octets and end times. Its backward counters stay zero until a reverse packet. |
| Properties.PathsDiffer | flowRecorder.py:262-275 | IGMP raises only in the file path. PIM and IPv6-in-IP raise only in the live path. Payloads without ports raise in both. |
| Properties.LiveMatchesBatch | flowRecorder.py:245-289 | Without IGMP, PIM or IPv6-in-IP packets, a live session computes what a u-mode file run computes. |
| Properties.LiveSkipsIgmp | flowRecorder.py:245-289 | Without PIM or IPv6-in-IP packets, a live session completes exactly when a u-mode file run over the same frames minus the IGMP packets completes, and then it holds the same cache. So UniRecordSummarizes describes every live session that completes. |
| Properties.BidirectionalConversation | flowRecorder.py:197-203 | Three packets A→B, B→A, A→B give one record keyed by A's direction, with BI = 3 packets / 210 octets, F = 2 / 160 and B = 1 / 50. |
| Properties.UnidirectionalConversation | flowRecorder.py:192-196 | The same three packets in u mode give two independent records, one per direction. |

## Left out

- The MD5 digest of the key text (flowRecorder.py:184-190): the cache is keyed by the ordered 5-tuple itself. The key texts are modelled and proved injective, and the digest is taken as collision-free.
- Decoding (dpkt Ethernet/IP parsing, pcap file reading, pcapy live capture): frames arrive already decoded as `Packets.Frame`. Any non-IPv4 network layer, IPv6 included, is `NotIPv4`.
- Timestamps: the source uses floating-point seconds (`sec + ms / 1000000` on the live path). The model uses integers in one fixed unit, so float rounding is not modelled.
- The IPv6 fallback of `inet_to_str`: the packets the core accounts are IPv4, so only the dotted-quad text is modelled.
- The end of a live capture by Ctrl-C (KeyboardInterrupt): a session ends at the end of the frames it was given.
- Output: these are display effects, so the model leaves them out. They are the two messages the live callback prints for skipped ICMP and IGMP packets (flowRecorder.py:269, 274), the pandas frames `main` builds and prints (flowRecorder.py:331-338, 352-357), `show_flow_cache` and `mac_addr`.
- Row order of the printed frames: the cache is a `map`, which has no insertion order, whereas the Python dictionary's order sets the order of the printed rows. This is display only.
- The command line: of `main`, only the choice of direction (`ModeOf`) is modelled. When both an interface and a file are given, `main` runs the live capture first and then the file (flowRecorder.py:325-357). The model has the two paths as separate operations (`Sniff`, `ProcessPackets`) that share no state.
- The global `flow_cache` shared by `sniff` and `process_packet`: it is passed explicitly as a `FlowCache` object.
- Driver.ProcessPacket: requires that the cache holds unidirectional records only. That holds for the live cache, which nothing else writes.
- Properties.BiRecordSummarizes: states the backward start only when the first backward packet's time is nonzero. A first reverse packet at time 0 leaves the sentinel at 0, so the next reverse packet overwrites it (flowRecorder.py:120-121).
- Properties.BiRecordSummarizes: requires the connection's first accepted packet to be forward for `t`. For the other order, apply it to the mirrored tuple.
