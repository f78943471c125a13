/**
 * Flow records and the value-level effect of the record builders:
 * what a record looks like when a packet opens it and after a packet
 * extends it, in unidirectional and in bidirectional accounting.
 */
module FlowRecords {
  import opened Packets
  import opened FlowKeys

  /** Which end of a bidirectional flow a packet came from ('f' and 'b' in the source). */
  datatype Direction = Forward | Backward

  /** One set of flow counters: start, end, duration, packets, octets. */
  datatype Counters = Counters(flowStart: int, flowEnd: int, flowDuration: int, pktTotalCount: nat, octetTotalCount: nat)

  /** The backward counters of a bidirectional record before any reverse packet: all zero. */
  const NO_TRAFFIC := Counters(0, 0, 0, 0, 0)

  /**
   * A record of the flow cache. A unidirectional run stores `UniFlow`
   * records and a bidirectional run `BiFlow` records; the 5-tuple is the
   * one of the packet that created the record, and `bwdKey` is the key of
   * the opposite direction.
   */
  datatype FlowRecord =
    | UniFlow(tuple: FiveTuple, stats: Counters)
    | BiFlow(tuple: FiveTuple, bwdKey: FlowKey, bi: Counters, fwd: Counters, bwd: Counters)

  /** The duration is the distance from start to end. */
  predicate Spans(c: Counters) {
    c.flowDuration == c.flowEnd - c.flowStart
  }

  predicate ValidUni(r: FlowRecord) {
    r.UniFlow? && Spans(r.stats) && r.stats.pktTotalCount >= 1
  }

  /**
   * The invariant of a bidirectional record: the combined counters are the
   * sums of the forward and backward ones, both start with the creating
   * packet, and the backward counters stay zero until a reverse packet.
   */
  predicate ValidBi(r: FlowRecord) {
    && r.BiFlow?
    && r.bi.pktTotalCount == r.fwd.pktTotalCount + r.bwd.pktTotalCount
    && r.bi.octetTotalCount == r.fwd.octetTotalCount + r.bwd.octetTotalCount
    && r.bi.flowDuration == r.bi.flowEnd - r.bi.flowStart
    && r.fwd.flowDuration == r.fwd.flowEnd - r.fwd.flowStart
    && r.bwd.flowDuration == r.bwd.flowEnd - r.bwd.flowStart
    && r.bi.flowStart == r.fwd.flowStart
    && r.fwd.pktTotalCount >= 1
    && (r.bwd.pktTotalCount == 0 <==> r.bwd == NO_TRAFFIC)
  }

  /** Counters opened by one packet. */
  function Opened(ts: int, len: Length): (c: Counters)
    ensures c.flowStart == ts && c.flowEnd == ts && c.flowDuration == 0
    ensures c.pktTotalCount == 1 && c.octetTotalCount == len
  {
    Counters(ts, ts, ts - ts, 1, len)
  }

  /** Counters extended by one packet: end moves to its time, one more packet, its octets added. */
  function Extended(c: Counters, ts: int, len: Length): (c': Counters)
    ensures c'.flowStart == c.flowStart && c'.flowEnd == ts && Spans(c')
    ensures c'.pktTotalCount == c.pktTotalCount + 1
    ensures c'.octetTotalCount == c.octetTotalCount + len
  {
    c.(flowEnd := ts, flowDuration := ts - c.flowStart,
       pktTotalCount := c.pktTotalCount + 1, octetTotalCount := c.octetTotalCount + len)
  }

  /** Backward counters extended by a reverse packet: a zero start is read as "no reverse packet yet" and replaced. */
  function ExtendedBackward(c: Counters, ts: int, len: Length): (c': Counters)
    ensures c'.flowStart == (if c.flowStart == 0 then ts else c.flowStart)
    ensures c'.flowEnd == ts && Spans(c')
    ensures c'.pktTotalCount == c.pktTotalCount + 1
    ensures c'.octetTotalCount == c.octetTotalCount + len
  {
    Extended(if c.flowStart == 0 then c.(flowStart := ts) else c, ts, len)
  }

  /** The record `create_flow_record` writes for the first packet of a unidirectional flow. */
  function NewFlowRecord(t: FiveTuple, ts: int, len: Length): (r: FlowRecord)
    ensures r.UniFlow? && r.tuple == t
    ensures r.stats.flowStart == ts && r.stats.flowEnd == ts && r.stats.flowDuration == 0
    ensures r.stats.pktTotalCount == 1 && r.stats.octetTotalCount == len
    ensures ValidUni(r)
  {
    UniFlow(t, Opened(ts, len))
  }

  /** The record after `update_flow_record` accounts one more packet. */
  function ExtendFlowRecord(r: FlowRecord, ts: int, len: Length): (r': FlowRecord)
    requires r.UniFlow?
    ensures r'.UniFlow? && r'.tuple == r.tuple
    ensures r'.stats.flowStart == r.stats.flowStart
    ensures r'.stats.flowEnd == ts && r'.stats.flowDuration == ts - r.stats.flowStart
    ensures r'.stats.pktTotalCount == r.stats.pktTotalCount + 1
    ensures r'.stats.octetTotalCount == r.stats.octetTotalCount + len
    ensures ValidUni(r) ==> ValidUni(r')
  {
    r.(stats := Extended(r.stats, ts, len))
  }

  /** The record `create_biflow_record` writes: combined and forward counters opened, backward counters zero. */
  function NewBiflowRecord(t: FiveTuple, ts: int, len: Length, bwdKey: FlowKey): (r: FlowRecord)
    ensures r.BiFlow? && r.tuple == t && r.bwdKey == bwdKey
    ensures r.bi == r.fwd && r.fwd.flowStart == ts && r.fwd.flowEnd == ts && r.fwd.flowDuration == 0
    ensures r.fwd.pktTotalCount == 1 && r.fwd.octetTotalCount == len
    ensures r.bwd.flowStart == 0 && r.bwd.flowEnd == 0 && r.bwd.flowDuration == 0
    ensures r.bwd.pktTotalCount == 0 && r.bwd.octetTotalCount == 0
    ensures ValidBi(r)
  {
    BiFlow(t, bwdKey, Opened(ts, len), Opened(ts, len), NO_TRAFFIC)
  }

  /**
   * The record after `update_biflow_record` accounts one more packet from
   * direction `dir`: the combined counters always move, and of the two
   * directional sets only the one of `dir`.
   */
  function ExtendBiflowRecord(r: FlowRecord, ts: int, len: Length, dir: Direction): (r': FlowRecord)
    requires r.BiFlow?
    ensures r'.BiFlow? && r'.tuple == r.tuple && r'.bwdKey == r.bwdKey
    ensures r'.bi.flowStart == r.bi.flowStart && r'.bi.flowEnd == ts && r'.bi.flowDuration == ts - r.bi.flowStart
    ensures r'.bi.pktTotalCount == r.bi.pktTotalCount + 1
    ensures r'.bi.octetTotalCount == r.bi.octetTotalCount + len
    ensures dir == Forward ==> r'.bwd == r.bwd
    ensures dir == Forward ==>
      && r'.fwd.flowStart == r.fwd.flowStart && r'.fwd.flowEnd == ts
      && r'.fwd.flowDuration == ts - r.fwd.flowStart
      && r'.fwd.pktTotalCount == r.fwd.pktTotalCount + 1
      && r'.fwd.octetTotalCount == r.fwd.octetTotalCount + len
    ensures dir == Backward ==> r'.fwd == r.fwd
    ensures dir == Backward ==>
      && r'.bwd.flowStart == (if r.bwd.flowStart == 0 then ts else r.bwd.flowStart)
      && r'.bwd.flowEnd == ts
      && r'.bwd.flowDuration == ts - r'.bwd.flowStart
      && r'.bwd.pktTotalCount == r.bwd.pktTotalCount + 1
      && r'.bwd.octetTotalCount == r.bwd.octetTotalCount + len
    ensures ValidBi(r) ==> ValidBi(r')
  {
    match dir
    case Forward => r.(bi := Extended(r.bi, ts, len), fwd := Extended(r.fwd, ts, len))
    case Backward => r.(bi := Extended(r.bi, ts, len), bwd := ExtendedBackward(r.bwd, ts, len))
  }

  /**
   * The zero sentinel: a backward start that is already nonzero is never
   * changed again, and the first reverse packet of a valid record sets it
   * to that packet's time.
   */
  lemma BackwardStartSentinel(r: FlowRecord, ts: int, len: Length, dir: Direction)
    requires ValidBi(r)
    ensures r.bwd.flowStart != 0 ==> ExtendBiflowRecord(r, ts, len, dir).bwd.flowStart == r.bwd.flowStart
    ensures r.bwd.pktTotalCount == 0 && dir == Backward ==> ExtendBiflowRecord(r, ts, len, dir).bwd.flowStart == ts
    ensures ts != 0 && dir == Backward ==> ExtendBiflowRecord(r, ts, len, dir).bwd.flowStart != 0
  {
  }
}
