/**
 * What a whole run computes. A filtered-out frame changes nothing; every
 * run keeps the cache invariant; a run aborts at the first accepted packet
 * without ports; in unidirectional mode each record summarises exactly the
 * packets of its 5-tuple; in bidirectional mode one record, keyed by the
 * direction seen first, summarises both directions of a connection.
 */
module Properties {
  import opened Wrappers
  import opened Packets
  import opened Classifier
  import opened FlowKeys
  import opened FlowRecords
  import opened Cache
  import opened Driver

  /** The frames the batch filter lets through, in capture order. */
  function Accepted(frames: seq<Frame>): (a: seq<Frame>)
    ensures forall i | 0 <= i < |a| :: Classify(a[i]) == Accept
    ensures forall f | f in frames && Classify(f) == Accept :: f in a
    decreases |frames|
  {
    if frames == [] then []
    else
      var f := frames[|frames| - 1];
      Accepted(frames[..|frames| - 1]) + (if Classify(f) == Accept then [f] else [])
  }

  /** Running one more frame is one more `Advance`. */
  lemma RunSnoc(frames: seq<Frame>, f: Frame, mode: Mode)
    ensures Run(frames + [f], mode) == Advance(Run(frames, mode), f, mode, |frames|)
  {
    assert (frames + [f])[..|frames|] == frames;
  }

  /** A rejected frame leaves the outcome of the run as it was. */
  lemma RejectedFrameChangesNothing(frames: seq<Frame>, f: Frame, mode: Mode)
    requires Classify(f).Reject?
    ensures Run(frames + [f], mode) == Run(frames, mode)
  {
    RunSnoc(frames, f, mode);
  }

  /** Running over all frames or over the accepted frames only gives the same cache, and aborts in the same cases. */
  lemma {:induction false} FilterIsTransparent(frames: seq<Frame>, mode: Mode)
    ensures Run(frames, mode).Completed? <==> Run(Accepted(frames), mode).Completed?
    ensures Run(frames, mode).Completed? ==> Run(frames, mode).flows == Run(Accepted(frames), mode).flows
    decreases |frames|
  {
    if frames != [] {
      var p, f := frames[..|frames| - 1], frames[|frames| - 1];
      assert frames == p + [f];
      FilterIsTransparent(p, mode);
      var a := Accepted(p);
      if Classify(f) == Accept {
        assert Accepted(frames) == a + [f];
        RunSnoc(a, f, mode);
      } else {
        assert Accepted(frames) == a;
        RejectedFrameChangesNothing(p, f, mode);
      }
    }
  }

  /** Every run that completes leaves a cache satisfying the cache invariant. */
  lemma {:induction false} RunKeepsInvariant(frames: seq<Frame>, mode: Mode)
    ensures Run(frames, mode).Completed? ==> CacheInvariant(Run(frames, mode).flows, mode)
    decreases |frames|
  {
    if frames != [] {
      var p, f := frames[..|frames| - 1], frames[|frames| - 1];
      RunKeepsInvariant(p, mode);
      if Run(p, mode).Completed? && Classify(f) == Accept && f.network.ip.payload.Segment? {
        var flows := Run(p, mode).flows;
        var t := FiveTupleOf(f.network.ip).value;
        match mode
        case Unidirectional => UniStepKeepsInvariant(flows, t, f.timestamp, f.network.ip.len);
        case Bidirectional => BiStepKeepsInvariant(flows, t, f.timestamp, f.network.ip.len);
      }
    }
  }

  /**
   * In bidirectional mode every record's combined counters are the sums of
   * its directional counters, and no connection is stored under both of its
   * keys.
   */
  lemma BiflowCountersAdd(frames: seq<Frame>, k: FlowKey)
    requires Run(frames, Bidirectional).Completed? && k in Run(frames, Bidirectional).flows
    ensures var r := Run(frames, Bidirectional).flows[k];
      && r.BiFlow?
      && r.bi.pktTotalCount == r.fwd.pktTotalCount + r.bwd.pktTotalCount
      && r.bi.octetTotalCount == r.fwd.octetTotalCount + r.bwd.octetTotalCount
    ensures var flows := Run(frames, Bidirectional).flows;
      ReverseKey(k) in flows ==> ReverseKey(k) == k
  {
    RunKeepsInvariant(frames, Bidirectional);
  }

  /**
   * A run aborts exactly when some frame raises, at the first one; which
   * frames raise does not depend on the mode.
   */
  lemma {:induction false} RunAbortsAtFirstRaise(frames: seq<Frame>, mode: Mode)
    ensures Run(frames, mode).Aborted? <==> exists i | 0 <= i < |frames| :: Raises(frames[i])
    ensures Run(frames, mode).Aborted? ==> forall i | 0 <= i < Run(frames, mode).position :: !Raises(frames[i])
    decreases |frames|
  {
    if frames != [] {
      var p, f := frames[..|frames| - 1], frames[|frames| - 1];
      RunAbortsAtFirstRaise(p, mode);
      if Run(p, mode).Aborted? {
        var i :| 0 <= i < |p| && Raises(p[i]);
        assert frames[i] == p[i];
      } else if !Raises(f) {
        forall i | 0 <= i < |frames|
          ensures !Raises(frames[i])
        {
          if i < |p| {
            assert frames[i] == p[i];
          }
        }
      } else {
        forall i | 0 <= i < |p|
          ensures !Raises(frames[i])
        {
          assert frames[i] == p[i];
        }
      }
    }
  }

  /** One accepted packet as the record it lands in sees it: when, how long, and from which end. */
  datatype Observation = Observation(timestamp: int, len: Length, dir: Direction)

  /** How a frame is seen by the record under `k`: as one more packet when it is an accepted packet with that forward key. */
  function SightedUnder(f: Frame, k: FlowKey): (s: seq<Observation>)
    ensures |s| <= 1 && forall i | 0 <= i < |s| :: s[i].dir == Forward
  {
    if Classify(f) == Accept && FiveTupleOf(f.network.ip) == Some(k)
    then [Observation(f.timestamp, f.network.ip.len, Forward)] else []
  }

  /** The accepted packets whose forward key is `k`, in capture order. */
  function Sightings(frames: seq<Frame>, k: FlowKey): (s: seq<Observation>)
    decreases |frames|
  {
    if frames == [] then []
    else Sightings(frames[..|frames| - 1], k) + SightedUnder(frames[|frames| - 1], k)
  }

  /**
   * How a frame is seen by the connection `t`: as a forward packet when it
   * is an accepted packet of the 5-tuple `t`, as a backward one when of the
   * swapped 5-tuple, and not at all otherwise.
   */
  function Sighted(f: Frame, t: FiveTuple): (s: seq<Observation>)
    ensures |s| <= 1
  {
    if Classify(f) != Accept then []
    else if FiveTupleOf(f.network.ip) == Some(t) then [Observation(f.timestamp, f.network.ip.len, Forward)]
    else if FiveTupleOf(f.network.ip) == Some(Swap(t)) then [Observation(f.timestamp, f.network.ip.len, Backward)]
    else []
  }

  /** The accepted packets of the connection `t` in both directions, in capture order. */
  function ConnectionSightings(frames: seq<Frame>, t: FiveTuple): (s: seq<Observation>)
    decreases |frames|
  {
    if frames == [] then []
    else ConnectionSightings(frames[..|frames| - 1], t) + Sighted(frames[|frames| - 1], t)
  }

  /** The observations from one end. */
  function From(s: seq<Observation>, dir: Direction): (d: seq<Observation>)
    ensures |d| <= |s|
    ensures forall i | 0 <= i < |d| :: d[i].dir == dir
    decreases |s|
  {
    if s == [] then []
    else From(s[..|s| - 1], dir) + (if s[|s| - 1].dir == dir then [s[|s| - 1]] else [])
  }

  /** The total length of the observed packets. */
  function Octets(s: seq<Observation>): nat
    decreases |s|
  {
    if s == [] then 0 else Octets(s[..|s| - 1]) + s[|s| - 1].len
  }

  /** From both ends together: as many packets and octets as there were. */
  lemma {:induction false} FromSplits(s: seq<Observation>)
    ensures |From(s, Forward)| + |From(s, Backward)| == |s|
    ensures Octets(From(s, Forward)) + Octets(From(s, Backward)) == Octets(s)
    decreases |s|
  {
    if s != [] {
      var p, o := s[..|s| - 1], s[|s| - 1];
      FromSplits(p);
      var fp, bp := From(p, Forward), From(p, Backward);
      if o.dir == Forward {
        assert From(s, Forward) == fp + [o] && From(s, Backward) == bp;
        assert (fp + [o])[..|fp|] == fp;
      } else {
        assert From(s, Backward) == bp + [o] && From(s, Forward) == fp;
        assert (bp + [o])[..|bp|] == bp;
      }
    }
  }

  /**
   * The unidirectional record under `k` after the sightings `s`: absent
   * while there were none, and afterwards a record of the 5-tuple `k` that
   * counts them, adds their lengths, and spans from the first to the last.
   */
  predicate Counts(flows: Flows, k: FlowKey, s: seq<Observation>) {
    && (k in flows <==> |s| > 0)
    && (k in flows ==>
          && flows[k].UniFlow? && flows[k].tuple == k
          && flows[k].stats.pktTotalCount == |s|
          && flows[k].stats.octetTotalCount == Octets(s)
          && flows[k].stats.flowStart == s[0].timestamp
          && flows[k].stats.flowEnd == s[|s| - 1].timestamp
          && flows[k].stats.flowDuration == s[|s| - 1].timestamp - s[0].timestamp)
  }

  /** A packet with forward key `k` opens or extends the record under `k`. */
  lemma OwnPacketCounts(flows: Flows, k: FlowKey, s: seq<Observation>, ts: int, len: Length)
    requires Conforms(flows, Unidirectional) && Counts(flows, k, s)
    ensures Counts(UniStep(flows, k, ts, len), k, s + [Observation(ts, len, Forward)])
  {
    ObserveSnoc(s, Observation(ts, len, Forward));
    if |s| > 0 {
      assert (s + [Observation(ts, len, Forward)])[0] == s[0];
    }
  }

  /** A packet with another forward key leaves the record under `k` as it was. */
  lemma OtherPacketCounts(flows: Flows, k: FlowKey, s: seq<Observation>, u: FiveTuple, ts: int, len: Length)
    requires Conforms(flows, Unidirectional) && Counts(flows, k, s)
    requires u != k
    ensures Counts(UniStep(flows, u, ts, len), k, s)
  {
  }

  /** One unidirectional step keeps the record under `k` counting the packets it sees. */
  lemma UniStepCounts(flows: Flows, k: FlowKey, s: seq<Observation>, f: Frame)
    requires Conforms(flows, Unidirectional) && !Raises(f)
    requires Counts(flows, k, s)
    ensures Counts(Step(flows, f, Unidirectional).value, k, s + SightedUnder(f, k))
  {
    if Classify(f) == Accept {
      var u := FiveTupleOf(f.network.ip).value;
      var ts, len := f.timestamp, f.network.ip.len;
      assert Step(flows, f, Unidirectional).value == UniStep(flows, u, ts, len);
      if u == k {
        assert SightedUnder(f, k) == [Observation(ts, len, Forward)];
        OwnPacketCounts(flows, k, s, ts, len);
      } else {
        assert SightedUnder(f, k) == [];
        assert s + [] == s;
        OtherPacketCounts(flows, k, s, u, ts, len);
      }
    } else {
      assert s + [] == s;
    }
  }

  /**
   * Unidirectional accounting: a key is present exactly when some accepted
   * packet has it as forward key, and its record counts those packets, adds
   * their lengths, and spans from the first to the last of them.
   */
  lemma {:induction false} UniRecordSummarizes(frames: seq<Frame>, k: FlowKey)
    requires Run(frames, Unidirectional).Completed?
    ensures Counts(Run(frames, Unidirectional).flows, k, Sightings(frames, k))
    decreases |frames|
  {
    if frames != [] {
      var p, f := frames[..|frames| - 1], frames[|frames| - 1];
      assert frames == p + [f];
      RunSnoc(p, f, Unidirectional);
      UniRecordSummarizes(p, k);
      UniStepCounts(Run(p, Unidirectional).flows, k, Sightings(p, k), f);
    }
  }

  /**
   * The counting property: N accepted packets of one 5-tuple give one
   * record, counting N packets and the octets of exactly those packets,
   * from the first packet's time to the last one's.
   */
  lemma OneTupleCounting(frames: seq<Frame>, t: FiveTuple)
    requires forall i | 0 <= i < |frames| ::
      frames[i].network.IPv4? && Classify(frames[i]) == Accept && FiveTupleOf(frames[i].network.ip) == Some(t)
    requires |frames| > 0
    ensures Run(frames, Unidirectional).Completed?
    ensures var flows, s := Run(frames, Unidirectional).flows, Sightings(frames, t);
      && flows.Keys == {ForwardKey(t)}
      && flows[t].stats.pktTotalCount == |frames| == |s|
      && flows[t].stats.octetTotalCount == Octets(s)
      && (forall i | 0 <= i < |frames| :: s[i].len == frames[i].network.ip.len)
      && flows[t].stats.flowStart == frames[0].timestamp
      && flows[t].stats.flowEnd == frames[|frames| - 1].timestamp
  {
    RunAbortsAtFirstRaise(frames, Unidirectional);
    SightingsOfOneTuple(frames, t, t);
    UniRecordSummarizes(frames, t);
    var flows := Run(frames, Unidirectional).flows;
    forall k | k in flows
      ensures k == t
    {
      UniRecordSummarizes(frames, k);
      SightingsOfOneTuple(frames, t, k);
    }
  }

  /** For frames all of the 5-tuple `t`, the sightings of `t` are all of them and those of any other key none. */
  lemma {:induction false} SightingsOfOneTuple(frames: seq<Frame>, t: FiveTuple, k: FlowKey)
    requires forall i | 0 <= i < |frames| ::
      frames[i].network.IPv4? && Classify(frames[i]) == Accept && FiveTupleOf(frames[i].network.ip) == Some(t)
    ensures k != t ==> Sightings(frames, k) == []
    ensures k == t ==> |Sightings(frames, k)| == |frames|
    ensures k == t ==> forall i | 0 <= i < |frames| ::
      && Sightings(frames, k)[i].timestamp == frames[i].timestamp
      && Sightings(frames, k)[i].len == frames[i].network.ip.len
    decreases |frames|
  {
    if frames != [] {
      var p := frames[..|frames| - 1];
      assert forall i | 0 <= i < |p| :: p[i] == frames[i];
      SightingsOfOneTuple(p, t, k);
    }
  }

  /** Extending a sequence of observations by one extends its total and the observations from that end. */
  lemma ObserveSnoc(s: seq<Observation>, o: Observation)
    ensures Octets(s + [o]) == Octets(s) + o.len
    ensures From(s + [o], o.dir) == From(s, o.dir) + [o]
    ensures o.dir == Forward ==> From(s + [o], Backward) == From(s, Backward)
    ensures o.dir == Backward ==> From(s + [o], Forward) == From(s, Forward)
  {
    assert (s + [o])[..|s|] == s;
  }

  /**
   * What a bidirectional record of the connection `t` holds after the
   * observations `s` (the first of them forward): the combined counters
   * over all of them, the forward and backward counters over those from
   * each end, and the backward counters all zero while there were none.
   */
  predicate Summarizes(r: FlowRecord, t: FiveTuple, s: seq<Observation>) {
    var fwd, bwd := From(s, Forward), From(s, Backward);
    && |s| > 0 && |fwd| > 0
    && r.BiFlow? && r.tuple == t && r.bwdKey == ReverseKey(t)
    && r.bi.pktTotalCount == |s| && r.bi.octetTotalCount == Octets(s)
    && r.bi.flowStart == s[0].timestamp && r.bi.flowEnd == s[|s| - 1].timestamp
    && r.fwd.pktTotalCount == |fwd| && r.fwd.octetTotalCount == Octets(fwd)
    && r.fwd.flowStart == s[0].timestamp && r.fwd.flowEnd == fwd[|fwd| - 1].timestamp
    && r.bwd.pktTotalCount == |bwd| && r.bwd.octetTotalCount == Octets(bwd)
    && (|bwd| == 0 ==> r.bwd == NO_TRAFFIC)
    && (|bwd| > 0 ==> r.bwd.flowEnd == bwd[|bwd| - 1].timestamp)
    && (|bwd| > 0 && bwd[0].timestamp != 0 ==> r.bwd.flowStart == bwd[0].timestamp)
  }

  /** The record created by a connection's first packet summarises that packet. */
  lemma OpeningSummarizes(t: FiveTuple, o: Observation)
    requires o.dir == Forward
    ensures Summarizes(NewBiflowRecord(t, o.timestamp, o.len, ReverseKey(t)), t, [o])
  {
    ObserveSnoc([], o);
    assert [] + [o] == [o];
  }

  /** A record summarising some observations, extended by one more packet, summarises them with it. */
  lemma ExtensionSummarizes(r: FlowRecord, t: FiveTuple, s: seq<Observation>, o: Observation)
    requires Summarizes(r, t, s)
    ensures Summarizes(ExtendBiflowRecord(r, o.timestamp, o.len, o.dir), t, s + [o])
  {
    ObserveSnoc(s, o);
    assert (s + [o])[0] == s[0];
    if o.dir == Backward && |From(s, Backward)| > 0 {
      assert (From(s, Backward) + [o])[0] == From(s, Backward)[0];
    }
  }

  /**
   * The cache as the connection `t` sees it after the observations `s`:
   * no record under either key while there were none, and afterwards one
   * record under `t`'s forward key, none under the reverse key (unless the
   * two coincide), summarising them.
   */
  predicate Tracks(flows: Flows, t: FiveTuple, s: seq<Observation>) {
    && (|s| == 0 ==> ForwardKey(t) !in flows && ReverseKey(t) !in flows)
    && (|s| > 0 ==>
          && ForwardKey(t) in flows
          && (ReverseKey(t) != ForwardKey(t) ==> ReverseKey(t) !in flows)
          && Summarizes(flows[ForwardKey(t)], t, s))
  }

  /** A packet of the 5-tuple `t`: it opens the connection's record or extends it forward. */
  lemma ForwardPacketTracks(flows: Flows, t: FiveTuple, s: seq<Observation>, ts: int, len: Length)
    requires Conforms(flows, Bidirectional) && Tracks(flows, t, s)
    requires |s| > 0 ==> s[0].dir == Forward
    ensures Tracks(BiStep(flows, t, ts, len), t, s + [Observation(ts, len, Forward)])
  {
    var o := Observation(ts, len, Forward);
    if |s| == 0 {
      assert s + [o] == [o];
      OpeningSummarizes(t, o);
    } else {
      ExtensionSummarizes(flows[t], t, s, o);
    }
  }

  /** A packet of the swapped 5-tuple of a connection already seen: it extends the record backward. */
  lemma BackwardPacketTracks(flows: Flows, t: FiveTuple, s: seq<Observation>, ts: int, len: Length)
    requires Conforms(flows, Bidirectional) && Tracks(flows, t, s)
    requires Swap(t) != t && |s| > 0
    ensures Tracks(BiStep(flows, Swap(t), ts, len), t, s + [Observation(ts, len, Backward)])
  {
    SwapInvolutive(t);
    ExtensionSummarizes(flows[t], t, s, Observation(ts, len, Backward));
  }

  /** A packet of another connection leaves both keys of `t` as they were. */
  lemma OtherPacketTracks(flows: Flows, t: FiveTuple, s: seq<Observation>, u: FiveTuple, ts: int, len: Length)
    requires Conforms(flows, Bidirectional) && Tracks(flows, t, s)
    requires u != t && u != Swap(t)
    ensures Tracks(BiStep(flows, u, ts, len), t, s)
  {
    SwapInvolutive(t);
    SwapInvolutive(u);
  }

  /** One bidirectional step keeps the cache tracking the connection `t`, as long as its first packet is forward. */
  lemma StepTracks(flows: Flows, t: FiveTuple, s: seq<Observation>, f: Frame)
    requires Conforms(flows, Bidirectional) && !Raises(f)
    requires Tracks(flows, t, s)
    requires |s + Sighted(f, t)| > 0 ==> (s + Sighted(f, t))[0].dir == Forward
    ensures Tracks(Step(flows, f, Bidirectional).value, t, s + Sighted(f, t))
  {
    if Classify(f) == Accept {
      var u := FiveTupleOf(f.network.ip).value;
      var ts, len := f.timestamp, f.network.ip.len;
      assert Step(flows, f, Bidirectional).value == BiStep(flows, u, ts, len);
      if u == t {
        assert Sighted(f, t) == [Observation(ts, len, Forward)];
        ForwardPacketTracks(flows, t, s, ts, len);
      } else if u == Swap(t) {
        assert Sighted(f, t) == [Observation(ts, len, Backward)];
        BackwardPacketTracks(flows, t, s, ts, len);
      } else {
        assert Sighted(f, t) == [];
        assert s + [] == s;
        OtherPacketTracks(flows, t, s, u, ts, len);
      }
    } else {
      assert s + [] == s;
    }
  }

  /**
   * One record per connection in bidirectional mode: when the first
   * accepted packet of a connection travels as `t`, the cache tracks the
   * connection under `t`'s forward key, summarising the packets of both
   * directions.
   */
  lemma {:induction false} BiRecordSummarizes(frames: seq<Frame>, t: FiveTuple)
    requires Run(frames, Bidirectional).Completed?
    requires |ConnectionSightings(frames, t)| > 0 ==> ConnectionSightings(frames, t)[0].dir == Forward
    ensures Tracks(Run(frames, Bidirectional).flows, t, ConnectionSightings(frames, t))
    decreases |frames|
  {
    if frames != [] {
      var p, f := frames[..|frames| - 1], frames[|frames| - 1];
      assert frames == p + [f];
      RunSnoc(p, f, Bidirectional);
      var sp := ConnectionSightings(p, t);
      assert |sp| > 0 ==> (sp + Sighted(f, t))[0] == sp[0];
      BiRecordSummarizes(p, t);
      StepTracks(Run(p, Bidirectional).flows, t, sp, f);
    }
  }

  /** The batch and live paths part ways only on IGMP, PIM and IPv6-in-IP: there one of them skips and the other raises. */
  lemma PathsDiffer(f: Frame)
    ensures Raises(f) && !RaisesLive(f) <==> f.network.IPv4? && f.network.ip.payload == IGMP
    ensures RaisesLive(f) && !Raises(f) <==> f.network.IPv4? && f.network.ip.payload in {PIM, IPv6}
    ensures Raises(f) && RaisesLive(f) <==> f.network.IPv4? && f.network.ip.payload == Unported
  {
  }

  /** Without IGMP, PIM and IPv6-in-IP packets, a live session computes what a unidirectional file run computes. */
  lemma {:induction false} LiveMatchesBatch(frames: seq<Frame>)
    requires forall i | 0 <= i < |frames| :: frames[i].network.IPv4? ==> frames[i].network.ip.payload !in {IGMP, PIM, IPv6}
    ensures LiveRun(frames) == Run(frames, Unidirectional)
    decreases |frames|
  {
    if frames != [] {
      var p, f := frames[..|frames| - 1], frames[|frames| - 1];
      assert forall i | 0 <= i < |p| :: p[i] == frames[i];
      LiveMatchesBatch(p);
      assert Classify(f) == ClassifyLive(f);
    }
  }

  /** An IPv4 packet carrying IGMP, which only the live filter skips. */
  predicate IsIgmp(f: Frame) {
    f.network.IPv4? && f.network.ip.payload == IGMP
  }

  /** The frames other than IGMP packets, in capture order. */
  function WithoutIgmp(frames: seq<Frame>): (w: seq<Frame>)
    ensures forall i | 0 <= i < |w| :: !IsIgmp(w[i])
    ensures forall f | f in frames && !IsIgmp(f) :: f in w
    decreases |frames|
  {
    if frames == [] then []
    else
      var f := frames[|frames| - 1];
      WithoutIgmp(frames[..|frames| - 1]) + (if IsIgmp(f) then [] else [f])
  }

  /** Two outcomes that both completed with the same cache, or both aborted. */
  predicate SameCache(o: Outcome, o': Outcome) {
    && (o.Completed? <==> o'.Completed?)
    && (o.Completed? ==> o.flows == o'.flows)
  }

  /** A frame both filters treat alike moves a live session and a file run holding the same cache alike. */
  lemma AlikeFrameKeepsSameCache(o: Outcome, o': Outcome, f: Frame, n: nat, m: nat)
    requires o.Completed? ==> Conforms(o.flows, Unidirectional)
    requires o'.Completed? ==> Conforms(o'.flows, Unidirectional)
    requires SameCache(o, o') && Classify(f) == ClassifyLive(f)
    ensures SameCache(LiveAdvance(o, f, n), Advance(o', f, Unidirectional, m))
  {
  }

  /**
   * Without PIM and IPv6-in-IP packets, a live session completes exactly
   * when a unidirectional file run over the same frames less the IGMP
   * packets does, and then holds the same cache.
   */
  lemma {:induction false} LiveSkipsIgmp(frames: seq<Frame>)
    requires forall i | 0 <= i < |frames| :: frames[i].network.IPv4? ==> frames[i].network.ip.payload !in {PIM, IPv6}
    ensures SameCache(LiveRun(frames), Run(WithoutIgmp(frames), Unidirectional))
    decreases |frames|
  {
    if frames != [] {
      var p, f := frames[..|frames| - 1], frames[|frames| - 1];
      assert forall i | 0 <= i < |p| :: p[i] == frames[i];
      LiveSkipsIgmp(p);
      var w := WithoutIgmp(p);
      if IsIgmp(f) {
        assert WithoutIgmp(frames) == w;
      } else {
        assert WithoutIgmp(frames) == w + [f];
        RunSnoc(w, f, Unidirectional);
        AlikeFrameKeepsSameCache(LiveRun(p), Run(w, Unidirectional), f, |p|, |w|);
      }
    }
  }

  /** A TCP or UDP packet of the 5-tuple `t`. */
  function Packet(ts: int, t: FiveTuple, len: Length): (f: Frame)
    ensures Classify(f) == Accept && FiveTupleOf(f.network.ip) == Some(t)
  {
    Frame(ts, IPv4(IPPacket(t.srcIP, t.dstIP, t.proto, len, Segment(t.srcPort, t.dstPort))))
  }

  /** A connection A to B: A sends at 0 (100 octets), B answers at 1 (50 octets), A sends again at 2 (60 octets). */
  function Conversation(t: FiveTuple): seq<Frame> {
    [Packet(0, t, 100), Packet(1, Swap(t), 50), Packet(2, t, 60)]
  }

  /** A packet of a known 5-tuple takes the step of the mode. */
  lemma PacketStep(flows: Flows, ts: int, t: FiveTuple, len: Length, mode: Mode)
    requires Conforms(flows, mode)
    ensures Step(flows, Packet(ts, t, len), mode) == Some(
      match mode
      case Unidirectional => UniStep(flows, t, ts, len)
      case Bidirectional => BiStep(flows, t, ts, len))
  {
  }

  /** The bidirectional record of the conversation after its first, second and third packet. */
  function FirstRecord(t: FiveTuple): FlowRecord {
    BiFlow(t, Swap(t), Counters(0, 0, 0, 1, 100), Counters(0, 0, 0, 1, 100), NO_TRAFFIC)
  }

  function SecondRecord(t: FiveTuple): FlowRecord {
    BiFlow(t, Swap(t), Counters(0, 1, 1, 2, 150), Counters(0, 0, 0, 1, 100), Counters(1, 1, 0, 1, 50))
  }

  function ThirdRecord(t: FiveTuple): FlowRecord {
    BiFlow(t, Swap(t), Counters(0, 2, 2, 3, 210), Counters(0, 2, 2, 2, 160), Counters(1, 1, 0, 1, 50))
  }

  /** A bidirectional step on a cache holding the one record of the connection `t`. */
  lemma BiStepOnOneRecord(t: FiveTuple, r: FlowRecord, u: FiveTuple, ts: int, len: Length)
    requires r.BiFlow?
    ensures u == t ==> BiStep(map[t := r], u, ts, len) == map[t := ExtendBiflowRecord(r, ts, len, Forward)]
    ensures u == Swap(t) && u != t ==> BiStep(map[t := r], u, ts, len) == map[t := ExtendBiflowRecord(r, ts, len, Backward)]
  {
    SwapInvolutive(t);
  }

  lemma OneRecordConforms(t: FiveTuple, r: FlowRecord)
    requires r.BiFlow?
    ensures Conforms(map[t := r], Bidirectional)
  {
  }

  lemma ConversationOpens(t: FiveTuple)
    ensures BiStep(map[], t, 0, 100) == map[t := FirstRecord(t)]
  {
  }

  lemma ConversationAnswered(t: FiveTuple)
    requires Swap(t) != t
    ensures BiStep(map[t := FirstRecord(t)], Swap(t), 1, 50) == map[t := SecondRecord(t)]
  {
    BiStepOnOneRecord(t, FirstRecord(t), Swap(t), 1, 50);
    AnswerCounted(t);
  }

  lemma ConversationContinues(t: FiveTuple)
    ensures BiStep(map[t := SecondRecord(t)], t, 2, 60) == map[t := ThirdRecord(t)]
  {
    BiStepOnOneRecord(t, SecondRecord(t), t, 2, 60);
    ContinuationCounted(t);
  }

  lemma AnswerCounted(t: FiveTuple)
    ensures ExtendBiflowRecord(FirstRecord(t), 1, 50, Backward) == SecondRecord(t)
  {
    var r := FirstRecord(t);
    BackwardExtension(r, 1, 50);
  }

  lemma ContinuationCounted(t: FiveTuple)
    ensures ExtendBiflowRecord(SecondRecord(t), 2, 60, Forward) == ThirdRecord(t)
  {
    var r := SecondRecord(t);
    ForwardExtension(r, 2, 60);
    assert Extended(r.bi, 2, 60) == Counters(0, 2, 2, 3, 210);
    assert Extended(r.fwd, 2, 60) == Counters(0, 2, 2, 2, 160);
  }

  /** A reverse packet extends the combined and the backward counters and nothing else (a step the concrete lemmas above rely on). */
  lemma BackwardExtension(r: FlowRecord, ts: int, len: Length)
    requires r.BiFlow?
    ensures ExtendBiflowRecord(r, ts, len, Backward) == r.(bi := Extended(r.bi, ts, len), bwd := ExtendedBackward(r.bwd, ts, len))
  {
  }

  /** A forward packet extends the combined and the forward counters and nothing else. */
  lemma ForwardExtension(r: FlowRecord, ts: int, len: Length)
    requires r.BiFlow?
    ensures ExtendBiflowRecord(r, ts, len, Forward) == r.(bi := Extended(r.bi, ts, len), fwd := Extended(r.fwd, ts, len))
  {
  }

  lemma ConversationAfterOne(t: FiveTuple)
    ensures Run([Packet(0, t, 100)], Bidirectional) == Completed(map[t := FirstRecord(t)])
  {
    var a := Packet(0, t, 100);
    calc {
      Run([a], Bidirectional);
    == { RunSnoc([], a, Bidirectional); assert [] + [a] == [a]; }
      Advance(Completed(map[]), a, Bidirectional, 0);
    == { PacketStep(map[], 0, t, 100, Bidirectional); }
      Completed(BiStep(map[], t, 0, 100));
    == { ConversationOpens(t); }
      Completed(map[t := FirstRecord(t)]);
    }
  }

  lemma ConversationAfterTwo(t: FiveTuple)
    requires Swap(t) != t
    ensures Run([Packet(0, t, 100), Packet(1, Swap(t), 50)], Bidirectional) == Completed(map[t := SecondRecord(t)])
  {
    var a, b := Packet(0, t, 100), Packet(1, Swap(t), 50);
    calc {
      Run([a, b], Bidirectional);
    == { RunSnoc([a], b, Bidirectional); assert [a] + [b] == [a, b]; }
      Advance(Run([a], Bidirectional), b, Bidirectional, 1);
    == { ConversationAfterOne(t); }
      Advance(Completed(map[t := FirstRecord(t)]), b, Bidirectional, 1);
    == { PacketStep(map[t := FirstRecord(t)], 1, Swap(t), 50, Bidirectional); }
      Completed(BiStep(map[t := FirstRecord(t)], Swap(t), 1, 50));
    == { ConversationAnswered(t); }
      Completed(map[t := SecondRecord(t)]);
    }
  }

  lemma ThirdPacketAdvances(t: FiveTuple)
    ensures Advance(Completed(map[t := SecondRecord(t)]), Packet(2, t, 60), Bidirectional, 2) == Completed(map[t := ThirdRecord(t)])
  {
    OneRecordConforms(t, SecondRecord(t));
    PacketStep(map[t := SecondRecord(t)], 2, t, 60, Bidirectional);
    ConversationContinues(t);
  }

  lemma ConversationAfterThree(t: FiveTuple)
    requires Swap(t) != t
    ensures Run(Conversation(t), Bidirectional) == Completed(map[t := ThirdRecord(t)])
  {
    var a, b, c := Packet(0, t, 100), Packet(1, Swap(t), 50), Packet(2, t, 60);
    calc {
      Run(Conversation(t), Bidirectional);
    == { RunSnoc([a, b], c, Bidirectional); assert [a, b] + [c] == Conversation(t); }
      Advance(Run([a, b], Bidirectional), c, Bidirectional, 2);
    == { ConversationAfterTwo(t); }
      Advance(Completed(map[t := SecondRecord(t)]), c, Bidirectional, 2);
    == { ThirdPacketAdvances(t); }
      Completed(map[t := ThirdRecord(t)]);
    }
  }

  /** The conversation in bidirectional mode: one record, keyed by A's direction, with the combined and per-direction counters. */
  lemma BidirectionalConversation(t: FiveTuple)
    requires Swap(t) != t
    ensures Run(Conversation(t), Bidirectional) == Completed(map[ForwardKey(t) :=
      BiFlow(t, ReverseKey(t), Counters(0, 2, 2, 3, 210), Counters(0, 2, 2, 2, 160), Counters(1, 1, 0, 1, 50))])
  {
    ConversationAfterThree(t);
  }

  /** The same conversation in unidirectional mode: two independent records, one per direction. */
  lemma UnidirectionalConversation(t: FiveTuple)
    requires Swap(t) != t
    ensures Run(Conversation(t), Unidirectional) == Completed(map[
      ForwardKey(t) := UniFlow(t, Counters(0, 2, 2, 2, 160)),
      ForwardKey(Swap(t)) := UniFlow(Swap(t), Counters(1, 1, 0, 1, 50))])
  {
    UniAfterThree(t);
    UniThirdCache(t);
  }

  lemma UniAfterThree(t: FiveTuple)
    requires Swap(t) != t
    ensures Run(Conversation(t), Unidirectional) == Completed(UniSecondCache(t)[t := UniFlow(t, Counters(0, 2, 2, 2, 160))])
  {
    var a, b, c := Packet(0, t, 100), Packet(1, Swap(t), 50), Packet(2, t, 60);
    RunOfThree(a, b, c, Unidirectional);
    UniAfterTwo(t);
    UniThirdPacket(t);
  }

  lemma RunOfThree(a: Frame, b: Frame, c: Frame, mode: Mode)
    ensures Run([a, b, c], mode) == Advance(Run([a, b], mode), c, mode, 2)
  {
    RunSnoc([a, b], c, mode);
    assert [a, b] + [c] == [a, b, c];
  }

  /** The cache after the third packet, written with the two forward keys. */
  lemma UniThirdCache(t: FiveTuple)
    requires Swap(t) != t
    ensures UniSecondCache(t)[t := UniFlow(t, Counters(0, 2, 2, 2, 160))] == map[
      ForwardKey(t) := UniFlow(t, Counters(0, 2, 2, 2, 160)),
      ForwardKey(Swap(t)) := UniFlow(Swap(t), Counters(1, 1, 0, 1, 50))]
  {
  }

  /** The unidirectional cache after the conversation's first two packets. */
  function UniSecondCache(t: FiveTuple): (m: Flows)
    ensures Conforms(m, Unidirectional)
  {
    var first := map[t := UniFlow(t, Counters(0, 0, 0, 1, 100))];
    UpdateConforms(first, Swap(t), UniFlow(Swap(t), Counters(1, 1, 0, 1, 50)), Unidirectional);
    first[Swap(t) := UniFlow(Swap(t), Counters(1, 1, 0, 1, 50))]
  }

  /** Storing a record of the mode's shape keeps every record of that shape. */
  lemma UpdateConforms(flows: Flows, k: FlowKey, r: FlowRecord, mode: Mode)
    requires Conforms(flows, mode) && Shaped(r, mode)
    ensures Conforms(flows[k := r], mode)
  {
  }

  /** A u-mode step on a key that is present extends the record under it. */
  lemma UniStepOnPresentKey(flows: Flows, t: FiveTuple, ts: int, len: Length)
    requires Conforms(flows, Unidirectional) && t in flows
    ensures UniStep(flows, t, ts, len) == flows[t := ExtendFlowRecord(flows[t], ts, len)]
  {
  }

  lemma UniThirdPacket(t: FiveTuple)
    requires Swap(t) != t
    ensures Advance(Completed(UniSecondCache(t)), Packet(2, t, 60), Unidirectional, 2)
      == Completed(UniSecondCache(t)[t := UniFlow(t, Counters(0, 2, 2, 2, 160))])
  {
    PacketStep(UniSecondCache(t), 2, t, 60, Unidirectional);
    UniThirdStep(t);
  }

  lemma UniThirdStep(t: FiveTuple)
    requires Swap(t) != t
    ensures UniStep(UniSecondCache(t), t, 2, 60) == UniSecondCache(t)[t := UniFlow(t, Counters(0, 2, 2, 2, 160))]
  {
    UniSecondCacheHolds(t);
    UniStepOnPresentKey(UniSecondCache(t), t, 2, 60);
    UniThirdRecord(t);
  }

  lemma UniSecondCacheHolds(t: FiveTuple)
    requires Swap(t) != t
    ensures t in UniSecondCache(t) && UniSecondCache(t)[t] == UniFlow(t, Counters(0, 0, 0, 1, 100))
  {
  }

  lemma UniThirdRecord(t: FiveTuple)
    ensures ExtendFlowRecord(UniFlow(t, Counters(0, 0, 0, 1, 100)), 2, 60) == UniFlow(t, Counters(0, 2, 2, 2, 160))
  {
  }

  lemma UniAfterOne(t: FiveTuple)
    ensures Run([Packet(0, t, 100)], Unidirectional) == Completed(map[t := UniFlow(t, Counters(0, 0, 0, 1, 100))])
  {
    RunOfOne(Packet(0, t, 100), Unidirectional);
    UniFirstPacket(t);
  }

  lemma RunOfOne(a: Frame, mode: Mode)
    ensures Run([a], mode) == Advance(Completed(map[]), a, mode, 0)
  {
    RunSnoc([], a, mode);
    assert [] + [a] == [a];
  }

  lemma UniFirstPacket(t: FiveTuple)
    ensures Advance(Completed(map[]), Packet(0, t, 100), Unidirectional, 0) == Completed(map[t := UniFlow(t, Counters(0, 0, 0, 1, 100))])
  {
    PacketStep(map[], 0, t, 100, Unidirectional);
    UniOpens(t);
  }

  lemma UniOpens(t: FiveTuple)
    ensures UniStep(map[], t, 0, 100) == map[t := UniFlow(t, Counters(0, 0, 0, 1, 100))]
  {
  }

  lemma UniAfterTwo(t: FiveTuple)
    requires Swap(t) != t
    ensures Run([Packet(0, t, 100), Packet(1, Swap(t), 50)], Unidirectional) == Completed(UniSecondCache(t))
  {
    var a, b := Packet(0, t, 100), Packet(1, Swap(t), 50);
    var m1 := map[t := UniFlow(t, Counters(0, 0, 0, 1, 100))];
    RunSnoc([a], b, Unidirectional);
    assert [a] + [b] == [a, b];
    UniAfterOne(t);
    PacketStep(m1, 1, Swap(t), 50, Unidirectional);
    assert UniStep(m1, Swap(t), 1, 50) == m1[Swap(t) := UniFlow(Swap(t), Counters(1, 1, 0, 1, 50))];
  }
}
