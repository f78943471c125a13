/**
 * The flow cache: a map from flow key to flow record, the only mutable
 * state of the recorder. `FlowCache` is the dictionary the builders update
 * in place; `UniStep` and `BiStep` are the value-level meaning of one
 * accepted packet in each mode, and `CacheInvariant` is what every run keeps.
 */
module Cache {
  import opened Packets
  import opened FlowKeys
  import opened FlowRecords

  /** The accounting mode: "u" and "b" in the source. */
  datatype Mode = Unidirectional | Bidirectional

  type Flows = map<FlowKey, FlowRecord>

  predicate Shaped(r: FlowRecord, mode: Mode) {
    match mode
    case Unidirectional => r.UniFlow?
    case Bidirectional => r.BiFlow?
  }

  /** Every record has the shape of the mode the run uses. */
  predicate Conforms(flows: Flows, mode: Mode) {
    forall k | k in flows :: Shaped(flows[k], mode)
  }

  /** A record stored under `k`: of the mode's shape, valid, and keyed by the forward key of its own 5-tuple. */
  predicate WellKeyed(k: FlowKey, r: FlowRecord, mode: Mode) {
    && Shaped(r, mode)
    && k == ForwardKey(r.tuple)
    && match mode
       case Unidirectional => ValidUni(r)
       case Bidirectional => ValidBi(r) && r.bwdKey == ReverseKey(r.tuple)
  }

  /**
   * No connection has two records: the mirror key of a record is the key of
   * no other record. (It may be the record's own key, when the 5-tuple reads
   * the same from both ends.)
   */
  predicate MirrorFree(flows: Flows) {
    forall k, j | k in flows && j in flows && k != j :: flows[k].BiFlow? && flows[k].bwdKey != j
  }

  predicate CacheInvariant(flows: Flows, mode: Mode) {
    && (forall k | k in flows :: WellKeyed(k, flows[k], mode))
    && (mode == Bidirectional ==> MirrorFree(flows))
  }

  lemma InvariantConforms(flows: Flows, mode: Mode)
    requires CacheInvariant(flows, mode)
    ensures Conforms(flows, mode)
  {
  }

  /**
   * One accepted packet in unidirectional mode: the record under the
   * packet's forward key is extended if present and created otherwise;
   * the reverse key is never consulted.
   */
  function UniStep(flows: Flows, t: FiveTuple, ts: int, len: Length): (flows': Flows)
    requires Conforms(flows, Unidirectional)
    ensures Conforms(flows', Unidirectional)
    ensures flows'.Keys == flows.Keys + {ForwardKey(t)}
    ensures forall k | k in flows && k != ForwardKey(t) :: flows'[k] == flows[k]
    ensures ForwardKey(t) !in flows ==> flows'[ForwardKey(t)].tuple == t
    ensures ForwardKey(t) in flows ==> flows'[ForwardKey(t)].tuple == flows[ForwardKey(t)].tuple
  {
    var fk := ForwardKey(t);
    if fk in flows then flows[fk := ExtendFlowRecord(flows[fk], ts, len)]
    else flows[fk := NewFlowRecord(t, ts, len)]
  }

  /**
   * One accepted packet in bidirectional mode: the forward key is looked up
   * first, then the reverse key, and a record is created (under the forward
   * key) only when neither is present.
   */
  function BiStep(flows: Flows, t: FiveTuple, ts: int, len: Length): (flows': Flows)
    requires Conforms(flows, Bidirectional)
    ensures Conforms(flows', Bidirectional)
    ensures ForwardKey(t) in flows || ReverseKey(t) in flows ==> flows'.Keys == flows.Keys
    ensures ForwardKey(t) !in flows && ReverseKey(t) !in flows ==> flows'.Keys == flows.Keys + {ForwardKey(t)}
    ensures forall k | k in flows && k != ForwardKey(t) && k != ReverseKey(t) :: flows'[k] == flows[k]
    ensures ForwardKey(t) !in flows ==> forall k | k in flows && k != ReverseKey(t) :: flows'[k] == flows[k]
  {
    var fk, rk := ForwardKey(t), ReverseKey(t);
    if fk in flows then flows[fk := ExtendBiflowRecord(flows[fk], ts, len, Forward)]
    else if rk in flows then flows[rk := ExtendBiflowRecord(flows[rk], ts, len, Backward)]
    else flows[fk := NewBiflowRecord(t, ts, len, rk)]
  }

  lemma UniStepKeepsInvariant(flows: Flows, t: FiveTuple, ts: int, len: Length)
    requires CacheInvariant(flows, Unidirectional)
    ensures CacheInvariant(UniStep(flows, t, ts, len), Unidirectional)
  {
  }

  lemma BiExtendKeepsWellKeyed(k: FlowKey, r: FlowRecord, ts: int, len: Length, dir: Direction)
    requires WellKeyed(k, r, Bidirectional)
    ensures WellKeyed(k, ExtendBiflowRecord(r, ts, len, dir), Bidirectional)
  {
  }

  /** Extending one bidirectional record keeps the invariant: keys, 5-tuples and mirror keys stay as they were. */
  lemma BiExtendKeepsInvariant(flows: Flows, k: FlowKey, ts: int, len: Length, dir: Direction)
    requires CacheInvariant(flows, Bidirectional) && k in flows
    ensures CacheInvariant(flows[k := ExtendBiflowRecord(flows[k], ts, len, dir)], Bidirectional)
  {
    var r' := ExtendBiflowRecord(flows[k], ts, len, dir);
    BiExtendKeepsWellKeyed(k, flows[k], ts, len, dir);
    var flows' := flows[k := r'];
    assert flows'.Keys == flows.Keys;
    forall j | j in flows'
      ensures WellKeyed(j, flows'[j], Bidirectional)
    {
      if j != k {
        assert flows'[j] == flows[j];
      }
    }
    forall a, b | a in flows' && b in flows' && a != b
      ensures flows'[a].BiFlow? && flows'[a].bwdKey != b
    {
      assert flows'[a].bwdKey == flows[a].bwdKey;
    }
  }

  /**
   * Creating a record for a packet whose keys are both absent keeps the
   * invariant: an older record whose mirror is the new key would be the
   * record of the packet's reverse key, which is absent.
   */
  lemma BiCreateKeepsInvariant(flows: Flows, t: FiveTuple, ts: int, len: Length)
    requires CacheInvariant(flows, Bidirectional)
    requires ForwardKey(t) !in flows && ReverseKey(t) !in flows
    ensures CacheInvariant(flows[ForwardKey(t) := NewBiflowRecord(t, ts, len, ReverseKey(t))], Bidirectional)
  {
    var fk, rk := ForwardKey(t), ReverseKey(t);
    var flows' := flows[fk := NewBiflowRecord(t, ts, len, rk)];
    forall k, j | k in flows' && j in flows' && k != j
      ensures flows'[k].BiFlow? && flows'[k].bwdKey != j
    {
      if k != fk && j == fk {
        ReverseKeyMatches(flows[k].tuple, t);
        SwapInvolutive(t);
      }
    }
  }

  /** Each bidirectional step keeps the invariant. */
  lemma BiStepKeepsInvariant(flows: Flows, t: FiveTuple, ts: int, len: Length)
    requires CacheInvariant(flows, Bidirectional)
    ensures CacheInvariant(BiStep(flows, t, ts, len), Bidirectional)
  {
    var fk, rk := ForwardKey(t), ReverseKey(t);
    if fk in flows {
      BiExtendKeepsInvariant(flows, fk, ts, len, Forward);
    } else if rk in flows {
      BiExtendKeepsInvariant(flows, rk, ts, len, Backward);
    } else {
      BiCreateKeepsInvariant(flows, t, ts, len);
    }
  }

  /** The flow cache of one processing run, updated in place by the record builders. */
  class FlowCache {
    var flows: Flows

    constructor ()
      ensures flows == map[]
    {
      flows := map[];
    }

    /** `is_flow_record_present`: whether a record is kept under `key`. */
    function IsFlowRecordPresent(key: FlowKey): (present: bool)
      reads this
      ensures present <==> key in flows
    {
      key in flows
    }

    /** `create_flow_record`: writes a fresh unidirectional record under `key`, field by field. */
    method CreateFlowRecord(key: FlowKey, ts: int, t: FiveTuple, len: Length)
      modifies this
      ensures flows == old(flows)[key := NewFlowRecord(t, ts, len)]
    {
      var s := NO_TRAFFIC;
      s := s.(flowStart := ts);
      s := s.(flowEnd := ts);
      s := s.(flowDuration := ts - s.flowStart);
      s := s.(pktTotalCount := 1);
      s := s.(octetTotalCount := len);
      flows := flows[key := UniFlow(t, s)];
    }

    /** `update_flow_record`: accounts one more packet in the unidirectional record under `key`. */
    method UpdateFlowRecord(key: FlowKey, ts: int, len: Length)
      requires key in flows && flows[key].UniFlow?
      modifies this
      ensures flows == old(flows)[key := ExtendFlowRecord(old(flows)[key], ts, len)]
    {
      var s := flows[key].stats;
      s := s.(flowEnd := ts);
      s := s.(flowDuration := ts - s.flowStart);
      s := s.(pktTotalCount := s.pktTotalCount + 1);
      s := s.(octetTotalCount := s.octetTotalCount + len);
      flows := flows[key := flows[key].(stats := s)];
    }

    /** `create_biflow_record`: writes a fresh bidirectional record under `key`, remembering the reverse key. */
    method CreateBiflowRecord(key: FlowKey, ts: int, t: FiveTuple, len: Length, bwdKey: FlowKey)
      modifies this
      ensures flows == old(flows)[key := NewBiflowRecord(t, ts, len, bwdKey)]
    {
      var bi := NO_TRAFFIC;
      bi := bi.(flowStart := ts);
      bi := bi.(flowEnd := ts);
      bi := bi.(flowDuration := ts - bi.flowStart);
      bi := bi.(pktTotalCount := 1);
      bi := bi.(octetTotalCount := len);
      var fwd := NO_TRAFFIC;
      fwd := fwd.(flowStart := ts);
      fwd := fwd.(flowEnd := ts);
      fwd := fwd.(flowDuration := ts - fwd.flowStart);
      fwd := fwd.(pktTotalCount := 1);
      fwd := fwd.(octetTotalCount := len);
      var bwd := NO_TRAFFIC;
      assert bi == Opened(ts, len);
      assert fwd == Opened(ts, len);
      flows := flows[key := BiFlow(t, bwdKey, bi, fwd, bwd)];
    }

    /** `update_biflow_record`: accounts one more packet from direction `dir` in the bidirectional record under `key`. */
    method UpdateBiflowRecord(key: FlowKey, ts: int, len: Length, dir: Direction)
      requires key in flows && flows[key].BiFlow?
      modifies this
      ensures flows == old(flows)[key := ExtendBiflowRecord(old(flows)[key], ts, len, dir)]
    {
      var r := flows[key];
      var bi := r.bi;
      bi := bi.(flowEnd := ts);
      bi := bi.(flowDuration := ts - bi.flowStart);
      bi := bi.(pktTotalCount := bi.pktTotalCount + 1);
      bi := bi.(octetTotalCount := bi.octetTotalCount + len);
      r := r.(bi := bi);
      if dir == Forward {
        var fwd := r.fwd;
        fwd := fwd.(flowEnd := ts);
        fwd := fwd.(flowDuration := ts - fwd.flowStart);
        fwd := fwd.(pktTotalCount := fwd.pktTotalCount + 1);
        fwd := fwd.(octetTotalCount := fwd.octetTotalCount + len);
        r := r.(fwd := fwd);
      } else {
        var bwd := r.bwd;
        if bwd.flowStart == 0 {
          bwd := bwd.(flowStart := ts);
        }
        bwd := bwd.(flowEnd := ts);
        bwd := bwd.(flowDuration := ts - bwd.flowStart);
        bwd := bwd.(pktTotalCount := bwd.pktTotalCount + 1);
        bwd := bwd.(octetTotalCount := bwd.octetTotalCount + len);
        r := r.(bwd := bwd);
      }
      flows := flows[key := r];
    }
  }
}
