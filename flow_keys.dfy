/**
 * The flow-key computer. The source keys its dictionary by the MD5 digest
 * of a text built from the packet's 5-tuple (forward order for the packet's
 * own key, swapped order for the reverse key). The model keeps those texts
 * and proves that they identify a flow exactly when its 5-tuple in that
 * order does; the cache is then keyed by the ordered 5-tuple itself. The
 * digest is left out and taken to be collision-free.
 */
module FlowKeys {
  import opened Wrappers
  import opened Packets
  import opened Text

  datatype FiveTuple = FiveTuple(srcIP: Address, srcPort: Port, dstIP: Address, dstPort: Port, proto: ProtoNumber)

  /** The identity of a flow: the ordered 5-tuple the key text is rendered from. */
  type FlowKey = FiveTuple

  /** The same connection seen from the other end. */
  function Swap(t: FiveTuple): (m: FiveTuple)
    ensures m.srcIP == t.dstIP && m.srcPort == t.dstPort
    ensures m.dstIP == t.srcIP && m.dstPort == t.srcPort
    ensures m.proto == t.proto
  {
    FiveTuple(t.dstIP, t.dstPort, t.srcIP, t.srcPort, t.proto)
  }

  lemma SwapInvolutive(t: FiveTuple)
    ensures Swap(Swap(t)) == t
  {
  }

  /**
   * The 5-tuple of an IPv4 packet. Reading the ports of a payload that has
   * none raises in the source; that is the `None` case.
   */
  function FiveTupleOf(ip: IPPacket): (t: Option<FiveTuple>)
    ensures t.Some? <==> ip.payload.Segment?
    ensures t.Some? ==> t.value.srcIP == ip.src && t.value.dstIP == ip.dst && t.value.proto == ip.proto
    ensures t.Some? ==> t.value.srcPort == ip.payload.sport && t.value.dstPort == ip.payload.dport
  {
    match ip.payload
    case Segment(sport, dport) => Some(FiveTuple(ip.src, sport, ip.dst, dport, ip.proto))
    case _ => None
  }

  /** The key of the packet's own direction (`flow_id`): the 5-tuple its key text identifies. */
  function ForwardKey(t: FiveTuple): (k: FlowKey)
    ensures forall u :: ForwardKeyText(u) == ForwardKeyText(t) <==> u == k
  {
    ForwardKeyTextIdentifies(t);
    t
  }

  /** The key of the opposite direction (`bwd_pkt_flow_id`): the forward key of the mirrored tuple. */
  function ReverseKey(t: FiveTuple): (k: FlowKey)
    ensures k.srcIP == t.dstIP && k.srcPort == t.dstPort && k.dstIP == t.srcIP && k.dstPort == t.srcPort
    ensures k.proto == t.proto
    ensures forall u :: ForwardKeyText(u) == ReverseKeyText(t) <==> u == k
  {
    ReverseKeyTextMirrors(t);
    ForwardKey(Swap(t))
  }

  /** Dotted-quad rendering of an IPv4 address, as `inet_ntop` writes it. */
  function AddressText(a: Address): (s: string)
    ensures s == DecimalText(a.b0) + "." + DecimalText(a.b1) + "." + DecimalText(a.b2) + "." + DecimalText(a.b3)
  {
    DottedText([DecimalText(a.b0), DecimalText(a.b1), DecimalText(a.b2), DecimalText(a.b3)])
  }

  /** Four fields joined by dots. */
  function DottedText(f: seq<string>): (s: string)
    requires |f| == 4
    ensures s == Join(f, '.')
    ensures s == f[0] + "." + f[1] + "." + f[2] + "." + f[3]
  {
    assert f[1..][1..][1..] == [f[3]];
    assert Join(f[1..][1..], '.') == f[2] + "." + f[3];
    assert Join(f[1..], '.') == f[1] + "." + f[2] + "." + f[3];
    Join(f, '.')
  }

  /** The text hashed into `flow_id`: source address, source port, destination address, destination port, protocol. */
  function ForwardKeyText(t: FiveTuple): (s: string)
    ensures s == AddressText(t.srcIP) + " " + DecimalText(t.srcPort) + " " + AddressText(t.dstIP) + " "
      + DecimalText(t.dstPort) + " " + DecimalText(t.proto)
  {
    KeyText([AddressText(t.srcIP), DecimalText(t.srcPort), AddressText(t.dstIP), DecimalText(t.dstPort), DecimalText(t.proto)])
  }

  /** The text hashed into `bwd_pkt_flow_id`: the destination fields first, then the source fields, then the protocol. */
  function ReverseKeyText(t: FiveTuple): (s: string)
    ensures s == AddressText(t.dstIP) + " " + DecimalText(t.dstPort) + " " + AddressText(t.srcIP) + " "
      + DecimalText(t.srcPort) + " " + DecimalText(t.proto)
  {
    KeyText([AddressText(t.dstIP), DecimalText(t.dstPort), AddressText(t.srcIP), DecimalText(t.srcPort), DecimalText(t.proto)])
  }

  /** Five fields joined by single spaces. */
  function KeyText(f: seq<string>): (s: string)
    requires |f| == 5
    ensures s == Join(f, ' ')
    ensures s == f[0] + " " + f[1] + " " + f[2] + " " + f[3] + " " + f[4]
  {
    assert f[1..][1..][1..][1..] == [f[4]];
    assert Join(f[1..][1..][1..], ' ') == f[3] + " " + f[4];
    assert Join(f[1..][1..], ' ') == f[2] + " " + f[3] + " " + f[4];
    assert Join(f[1..], ' ') == f[1] + " " + f[2] + " " + f[3] + " " + f[4];
    Join(f, ' ')
  }

  /** Two tuples share a forward key text exactly when they are the same tuple. */
  lemma ForwardKeyTextIdentifies(t: FiveTuple)
    ensures forall u :: ForwardKeyText(u) == ForwardKeyText(t) <==> u == t
  {
    forall u
      ensures ForwardKeyText(u) == ForwardKeyText(t) <==> u == t
    {
      ForwardKeyTextInjective(u, t);
    }
  }

  lemma DecimalTextHasNoSeparator(n: nat)
    ensures ' ' !in DecimalText(n) && '.' !in DecimalText(n)
  {
    var s := DecimalText(n);
    assert AllDigits(s);
  }

  lemma AddressTextHasNoSpace(a: Address)
    ensures ' ' !in AddressText(a)
  {
    var fields := [DecimalText(a.b0), DecimalText(a.b1), DecimalText(a.b2), DecimalText(a.b3)];
    DecimalTextHasNoSeparator(a.b0);
    DecimalTextHasNoSeparator(a.b1);
    DecimalTextHasNoSeparator(a.b2);
    DecimalTextHasNoSeparator(a.b3);
    assert AddressText(a) == DottedText(fields) == Join(fields, '.');
    JoinAvoids(fields, '.', ' ');
  }

  lemma AddressTextInjective(a: Address, b: Address)
    ensures AddressText(a) == AddressText(b) <==> a == b
  {
    if AddressText(a) == AddressText(b) {
      var f := [DecimalText(a.b0), DecimalText(a.b1), DecimalText(a.b2), DecimalText(a.b3)];
      var g := [DecimalText(b.b0), DecimalText(b.b1), DecimalText(b.b2), DecimalText(b.b3)];
      DecimalTextHasNoSeparator(a.b0);
      DecimalTextHasNoSeparator(a.b1);
      DecimalTextHasNoSeparator(a.b2);
      DecimalTextHasNoSeparator(a.b3);
      DecimalTextHasNoSeparator(b.b0);
      DecimalTextHasNoSeparator(b.b1);
      DecimalTextHasNoSeparator(b.b2);
      DecimalTextHasNoSeparator(b.b3);
      assert Join(f, '.') == DottedText(f) == AddressText(a);
      assert Join(g, '.') == DottedText(g) == AddressText(b);
      JoinInjective(f, g, '.');
      assert f[0] == g[0] && f[1] == g[1] && f[2] == g[2] && f[3] == g[3];
      DecimalTextInjective(a.b0, b.b0);
      DecimalTextInjective(a.b1, b.b1);
      DecimalTextInjective(a.b2, b.b2);
      DecimalTextInjective(a.b3, b.b3);
    }
  }

  /** Two packets get the same forward key text exactly when their directional 5-tuples are equal. */
  lemma ForwardKeyTextInjective(t: FiveTuple, u: FiveTuple)
    ensures ForwardKeyText(t) == ForwardKeyText(u) <==> t == u
  {
    if ForwardKeyText(t) == ForwardKeyText(u) {
      SameTextSameFields(t, u);
      AddressTextInjective(t.srcIP, u.srcIP);
      AddressTextInjective(t.dstIP, u.dstIP);
      DecimalTextInjective(t.srcPort, u.srcPort);
      DecimalTextInjective(t.dstPort, u.dstPort);
      DecimalTextInjective(t.proto, u.proto);
    }
  }

  /** The five fields of the forward key text, in the order they are written. */
  function KeyFields(t: FiveTuple): (f: seq<string>)
    ensures |f| == 5 && KeyText(f) == ForwardKeyText(t)
  {
    [AddressText(t.srcIP), DecimalText(t.srcPort), AddressText(t.dstIP), DecimalText(t.dstPort), DecimalText(t.proto)]
  }

  lemma KeyFieldsHaveNoSpace(t: FiveTuple)
    ensures forall i | 0 <= i < |KeyFields(t)| :: ' ' !in KeyFields(t)[i]
  {
    AddressTextHasNoSpace(t.srcIP);
    AddressTextHasNoSpace(t.dstIP);
    DecimalTextHasNoSeparator(t.srcPort);
    DecimalTextHasNoSeparator(t.dstPort);
    DecimalTextHasNoSeparator(t.proto);
  }

  /** Equal forward key texts have equal fields, since no field contains the space that separates them. */
  lemma SameTextSameFields(t: FiveTuple, u: FiveTuple)
    requires ForwardKeyText(t) == ForwardKeyText(u)
    ensures AddressText(t.srcIP) == AddressText(u.srcIP) && AddressText(t.dstIP) == AddressText(u.dstIP)
    ensures DecimalText(t.srcPort) == DecimalText(u.srcPort) && DecimalText(t.dstPort) == DecimalText(u.dstPort)
    ensures DecimalText(t.proto) == DecimalText(u.proto)
  {
    var f, g := KeyFields(t), KeyFields(u);
    KeyFieldsHaveNoSpace(t);
    KeyFieldsHaveNoSpace(u);
    JoinInjective(f, g, ' ');
  }

  /** The mirror property of the texts: the reverse text of a tuple is the forward text of the swapped tuple. */
  lemma ReverseKeyTextMirrors(t: FiveTuple)
    ensures ReverseKeyText(t) == ForwardKeyText(Swap(t))
  {
  }

  /**
   * Keying by the ordered 5-tuple separates exactly the flows the source's
   * key texts separate, for forward lookups and for reverse lookups.
   */
  lemma KeysAgreeWithTexts(t: FiveTuple, u: FiveTuple)
    ensures ForwardKeyText(t) == ForwardKeyText(u) <==> ForwardKey(t) == ForwardKey(u)
    ensures ReverseKeyText(t) == ForwardKeyText(u) <==> ReverseKey(t) == ForwardKey(u)
  {
    ForwardKeyTextInjective(t, u);
    ForwardKeyTextInjective(Swap(t), u);
  }

  /** A packet's reverse key is another packet's forward key exactly when that packet travels the other way. */
  lemma ReverseKeyMatches(t: FiveTuple, u: FiveTuple)
    ensures ReverseKey(t) == ForwardKey(u) <==> u == Swap(t)
  {
  }

  /** The two keys of a packet coincide exactly when the tuple reads the same from both ends. */
  lemma KeysCoincide(t: FiveTuple)
    ensures ForwardKey(t) == ReverseKey(t) <==> Swap(t) == t
  {
  }
}
