/**
 * The packet-processing loops: `process_packets` over a capture file in
 * either mode, and the live path (`process_packet`, called by `sniff` for
 * every captured frame), which always accounts unidirectionally into one
 * long-lived cache. `Run` and `LiveRun` are their value-level meanings.
 */
module Driver {
  import opened Wrappers
  import opened Packets
  import opened Classifier
  import opened FlowKeys
  import opened FlowRecords
  import opened Cache

  /**
   * The end of a run: the final cache, or the position of the frame whose
   * port numbers could not be read (an accepted packet whose payload has no
   * ports), which raises and ends the run without a cache.
   */
  datatype Outcome = Completed(flows: Flows) | Aborted(position: nat)

  /** An accepted packet without ports: reading them for its key raises. Only IGMP and unported payloads get that far. */
  function Raises(f: Frame): (b: bool)
    ensures b <==> Classify(f) == Accept && FiveTupleOf(f.network.ip).None?
    ensures b ==> f.network.ip.payload in {IGMP, Unported}
  {
    Classify(f) == Accept && !f.network.ip.payload.Segment?
  }

  /** The same for the live filter, past which only PIM, IPv6-in-IP and unported payloads raise. */
  function RaisesLive(f: Frame): (b: bool)
    ensures b <==> ClassifyLive(f) == Accept && FiveTupleOf(f.network.ip).None?
    ensures b ==> f.network.ip.payload in {PIM, IPv6, Unported}
  {
    ClassifyLive(f) == Accept && !f.network.ip.payload.Segment?
  }

  /** One packet of `process_packets`: skipped when filtered out, otherwise accounted in the run's mode. */
  function Step(flows: Flows, f: Frame, mode: Mode): (r: Option<Flows>)
    requires Conforms(flows, mode)
    ensures r.None? <==> Raises(f)
    ensures Classify(f).Reject? ==> r == Some(flows)
    ensures r.Some? ==> Conforms(r.value, mode)
  {
    if Classify(f).Reject? then Some(flows)
    else
      match FiveTupleOf(f.network.ip)
      case None => None
      case Some(t) =>
        match mode
        case Unidirectional => Some(UniStep(flows, t, f.timestamp, f.network.ip.len))
        case Bidirectional => Some(BiStep(flows, t, f.timestamp, f.network.ip.len))
  }

  /** The outcome after the frame at `position`: an aborted run stays aborted, a completed one takes the step. */
  function Advance(o: Outcome, f: Frame, mode: Mode, position: nat): (o': Outcome)
    requires o.Completed? ==> Conforms(o.flows, mode)
    ensures o.Aborted? ==> o' == o
    ensures o.Completed? ==> (o'.Aborted? <==> Raises(f))
    ensures o'.Aborted? && o.Completed? ==> o'.position == position
    ensures o'.Completed? ==> Conforms(o'.flows, mode)
  {
    match o
    case Aborted(_) => o
    case Completed(flows) =>
      match Step(flows, f, mode)
      case None => Aborted(position)
      case Some(flows') => Completed(flows')
  }

  /** `process_packets` as a fold: an empty cache, then one step per frame in capture order. */
  function Run(frames: seq<Frame>, mode: Mode): (o: Outcome)
    ensures o.Completed? ==> Conforms(o.flows, mode)
    ensures o.Aborted? ==> o.position < |frames| && Raises(frames[o.position])
    decreases |frames|
  {
    if frames == [] then Completed(map[])
    else Advance(Run(frames[..|frames| - 1], mode), frames[|frames| - 1], mode, |frames| - 1)
  }

  /** One frame of the live path: its own filter, then unidirectional accounting. */
  function LiveStep(flows: Flows, f: Frame): (r: Option<Flows>)
    requires Conforms(flows, Unidirectional)
    ensures r.None? <==> RaisesLive(f)
    ensures ClassifyLive(f).Reject? ==> r == Some(flows)
    ensures r.Some? ==> Conforms(r.value, Unidirectional)
  {
    if ClassifyLive(f).Reject? then Some(flows)
    else
      match FiveTupleOf(f.network.ip)
      case None => None
      case Some(t) => Some(UniStep(flows, t, f.timestamp, f.network.ip.len))
  }

  /** The live counterpart of `Advance`. */
  function LiveAdvance(o: Outcome, f: Frame, position: nat): (o': Outcome)
    requires o.Completed? ==> Conforms(o.flows, Unidirectional)
    ensures o.Aborted? ==> o' == o
    ensures o.Completed? ==> (o'.Aborted? <==> RaisesLive(f))
    ensures o'.Aborted? && o.Completed? ==> o'.position == position
    ensures o'.Completed? ==> Conforms(o'.flows, Unidirectional)
  {
    match o
    case Aborted(_) => o
    case Completed(flows) =>
      match LiveStep(flows, f)
      case None => Aborted(position)
      case Some(flows') => Completed(flows')
  }

  /** A live capture session over the frames it sees, from an empty cache. */
  function LiveRun(frames: seq<Frame>): (o: Outcome)
    ensures o.Completed? ==> Conforms(o.flows, Unidirectional)
    ensures o.Aborted? ==> o.position < |frames| && RaisesLive(frames[o.position])
    decreases |frames|
  {
    if frames == [] then Completed(map[])
    else LiveAdvance(LiveRun(frames[..|frames| - 1]), frames[|frames| - 1], |frames| - 1)
  }

  /** A run that has aborted stays aborted at the same frame, however many frames follow. */
  lemma {:induction false} AbortIsFinal(frames: seq<Frame>, n: nat, mode: Mode)
    requires n <= |frames| && Run(frames[..n], mode).Aborted?
    ensures Run(frames, mode) == Run(frames[..n], mode)
    decreases |frames| - n
  {
    if n < |frames| {
      assert frames[..n + 1][..n] == frames[..n];
      AbortIsFinal(frames, n + 1, mode);
    } else {
      assert frames[..n] == frames;
    }
  }

  /** The same for a live session. */
  lemma {:induction false} LiveAbortIsFinal(frames: seq<Frame>, n: nat)
    requires n <= |frames| && LiveRun(frames[..n]).Aborted?
    ensures LiveRun(frames) == LiveRun(frames[..n])
    decreases |frames| - n
  {
    if n < |frames| {
      assert frames[..n + 1][..n] == frames[..n];
      LiveAbortIsFinal(frames, n + 1);
    } else {
      assert frames[..n] == frames;
    }
  }

  /**
   * `process_packets`: a fresh cache, the batch filter, the two keys, and
   * the lookup-then-create-or-update dispatch of the mode.
   */
  method ProcessPackets(frames: seq<Frame>, mode: Mode) returns (o: Outcome)
    ensures o == Run(frames, mode)
  {
    var cache := new FlowCache();
    var i := 0;
    while i < |frames|
      invariant 0 <= i <= |frames|
      invariant Run(frames[..i], mode) == Completed(cache.flows)
    {
      var f := frames[i];
      assert frames[..i + 1][..i] == frames[..i];
      if Classify(f) == Accept {
        var ip := f.network.ip;
        if !ip.payload.Segment? {
          AbortIsFinal(frames, i + 1, mode);
          return Aborted(i);
        }
        var t := FiveTuple(ip.src, ip.payload.sport, ip.dst, ip.payload.dport, ip.proto);
        var flowId, bwdId := ForwardKey(t), ReverseKey(t);
        match mode
        case Unidirectional =>
          if cache.IsFlowRecordPresent(flowId) {
            cache.UpdateFlowRecord(flowId, f.timestamp, ip.len);
          } else {
            cache.CreateFlowRecord(flowId, f.timestamp, t, ip.len);
          }
        case Bidirectional =>
          if cache.IsFlowRecordPresent(flowId) {
            cache.UpdateBiflowRecord(flowId, f.timestamp, ip.len, Forward);
          } else if cache.IsFlowRecordPresent(bwdId) {
            cache.UpdateBiflowRecord(bwdId, f.timestamp, ip.len, Backward);
          } else {
            cache.CreateBiflowRecord(flowId, f.timestamp, t, ip.len, bwdId);
          }
      }
      i := i + 1;
    }
    assert frames[..i] == frames;
    return Completed(cache.flows);
  }

  /**
   * `process_packet`: one live frame into the long-lived cache. When the
   * port numbers cannot be read it raises before touching the cache.
   */
  method ProcessPacket(cache: FlowCache, f: Frame) returns (raised: bool)
    requires Conforms(cache.flows, Unidirectional)
    modifies cache
    ensures raised <==> RaisesLive(f)
    ensures raised ==> cache.flows == old(cache.flows)
    ensures !raised ==> cache.flows == LiveStep(old(cache.flows), f).value
  {
    if ClassifyLive(f).Reject? {
      return false;
    }
    var ip := f.network.ip;
    if !ip.payload.Segment? {
      return true;
    }
    var t := FiveTuple(ip.src, ip.payload.sport, ip.dst, ip.payload.dport, ip.proto);
    var flowId := ForwardKey(t);
    if cache.IsFlowRecordPresent(flowId) {
      cache.UpdateFlowRecord(flowId, f.timestamp, ip.len);
    } else {
      cache.CreateFlowRecord(flowId, f.timestamp, t, ip.len);
    }
    return false;
  }

  /**
   * `sniff`: a fresh cache fed every captured frame through `process_packet`
   * until the capture ends (the source stops on an interrupt; here, at the
   * end of `frames`) or a frame raises.
   */
  method Sniff(frames: seq<Frame>) returns (o: Outcome)
    ensures o == LiveRun(frames)
  {
    var cache := new FlowCache();
    var i := 0;
    while i < |frames|
      invariant 0 <= i <= |frames|
      invariant LiveRun(frames[..i]) == Completed(cache.flows)
    {
      assert frames[..i + 1][..i] == frames[..i];
      var raised := ProcessPacket(cache, frames[i]);
      if raised {
        LiveAbortIsFinal(frames, i + 1);
        return Aborted(i);
      }
      i := i + 1;
    }
    assert frames[..i] == frames;
    return Completed(cache.flows);
  }

  /**
   * The `--direction` option: "b" selects bidirectional accounting, and
   * every other value, a missing one included, falls back to unidirectional.
   */
  function ModeOf(direction: Option<string>): (m: Mode)
    ensures m == Bidirectional <==> direction == Some("b")
    ensures direction == Some("u") ==> m == Unidirectional
  {
    match direction
    case Some(d) => if d == "b" then Bidirectional else Unidirectional
    case None => Unidirectional
  }
}
