/**
 * The packet classifier: which frames take part in flow accounting.
 * The file-processing loop and the live-capture callback test different
 * payload kinds, so there are two classifiers.
 */
module Classifier {
  import opened Packets

  datatype RejectReason = NotAnIPv4Packet | IcmpPayload | IgmpPayload | PimPayload | IPv6Payload

  datatype Verdict = Accept | Reject(reason: RejectReason)

  /** The filter of the file-processing loop: non-IPv4 frames, then ICMP, PIM and IPv6-in-IP payloads are skipped, in that order. */
  function Classify(f: Frame): (v: Verdict)
    ensures v == Accept <==> f.network.IPv4? && f.network.ip.payload !in {ICMP, PIM, IPv6}
    ensures v == Reject(NotAnIPv4Packet) <==> f.network.NotIPv4?
    ensures v.Reject? ==> v.reason != IgmpPayload
  {
    match f.network
    case NotIPv4 => Reject(NotAnIPv4Packet)
    case IPv4(ip) =>
      if ip.payload.ICMP? then Reject(IcmpPayload)
      else if ip.payload.PIM? then Reject(PimPayload)
      else if ip.payload.IPv6? then Reject(IPv6Payload)
      else Accept
  }

  /** The filter of the live-capture callback: non-IPv4 frames, then ICMP and IGMP payloads are skipped. */
  function ClassifyLive(f: Frame): (v: Verdict)
    ensures v == Accept <==> f.network.IPv4? && f.network.ip.payload !in {ICMP, IGMP}
    ensures v == Reject(NotAnIPv4Packet) <==> f.network.NotIPv4?
    ensures v.Reject? ==> v.reason in {NotAnIPv4Packet, IcmpPayload, IgmpPayload}
  {
    match f.network
    case NotIPv4 => Reject(NotAnIPv4Packet)
    case IPv4(ip) =>
      if ip.payload.ICMP? then Reject(IcmpPayload)
      else if ip.payload.IGMP? then Reject(IgmpPayload)
      else Accept
  }

  /** The two filters disagree exactly on IPv4 packets carrying IGMP, PIM or IPv6-in-IP. */
  lemma FiltersDisagreeOn(f: Frame)
    ensures (Classify(f) == Accept) != (ClassifyLive(f) == Accept)
        <==> f.network.IPv4? && f.network.ip.payload in {IGMP, PIM, IPv6}
  {
  }
}
