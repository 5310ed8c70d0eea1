/** What a tracker run computes: flows stand alone, volumes add up, retransmissions
    refine unbounded sequence numbers, and the pending lists are exact. */
module TrackerProofs {
  import opened Bytes
  import opened KeyedFold
  import opened MapSums
  import opened FlowTracker

  // ----- keys

  /** Both directions of a TCP, UDP or SCTP exchange have one key. */
  lemma KeyIsSymmetric(p: Packet, q: Packet)
    requires !IsIcmp(p.proto) && q.proto == p.proto
    requires q.srcIP == p.dstIP && q.dstIP == p.srcIP && q.srcPort == p.dstPort && q.dstPort == p.srcPort
    ensures KeyOf(p) == KeyOf(q)
    ensures p.srcIP != p.dstIP || p.srcPort != p.dstPort ==> Reversed(p) != Reversed(q)
  {
    LessTotal(p.srcIP, p.dstIP);
  }

  /** The two ends of a packet as its key has them: source first unless it is reversed.
      ICMP keys have no ports. */
  predicate EndsMatch(k: FlowKey, p: Packet) {
    && k.proto == p.proto
    && (if Reversed(p) then k.srcIP == p.dstIP && k.dstIP == p.srcIP else k.srcIP == p.srcIP && k.dstIP == p.dstIP)
    && (if IsIcmp(p.proto) then k.srcPort == 0 && k.dstPort == 0
        else if Reversed(p) then k.srcPort == p.dstPort && k.dstPort == p.srcPort
        else k.srcPort == p.srcPort && k.dstPort == p.dstPort)
  }

  lemma KeyHasEnds(p: Packet)
    ensures EndsMatch(KeyOf(p), p)
  {
  }

  /** One conversation: the same ends in the same or the opposite order, with their ports
      unless it is ICMP. */
  predicate SameConversation(p: Packet, q: Packet) {
    && p.proto == q.proto
    && (|| (p.srcIP == q.srcIP && p.dstIP == q.dstIP && (IsIcmp(p.proto) || (p.srcPort == q.srcPort && p.dstPort == q.dstPort)))
        || (p.srcIP == q.dstIP && p.dstIP == q.srcIP && (IsIcmp(p.proto) || (p.srcPort == q.dstPort && p.dstPort == q.srcPort))))
  }

  /** Packets have one key if and only if they belong to one conversation. */
  lemma KeyExactly(p: Packet, q: Packet)
    ensures KeyOf(p) == KeyOf(q) <==> SameConversation(p, q)
  {
    LessTotal(p.srcIP, p.dstIP);
    LessTotal(q.srcIP, q.dstIP);
    KeyHasEnds(p);
    KeyHasEnds(q);
  }

  /** Main identity theorem: every record carries its flow's key, whose ends are those of
      each of its packets, in the orientation that the forward and reverse counters use. */
  lemma {:induction false} RecordIdentity(ps: seq<Packet>, k: FlowKey, p: Packet)
    requires k in Track(TRACKER, ps)
    ensures Track(TRACKER, ps)[k].key == k
    ensures Has(TRACKER, p, k) ==> EndsMatch(Track(TRACKER, ps)[k].key, p)
    decreases |ps|
  {
    var front, q := ps[..|ps| - 1], ps[|ps| - 1];
    if k in Track(TRACKER, front) {
      RecordIdentity(front, k, p);
    }
    KeyHasEnds(p);
    TouchKey(if k in Track(TRACKER, front) then Track(TRACKER, front)[k] else NewRecord(KeyOf(q), q.ts), q);
  }

  lemma TouchKey(rec: FlowRecord, p: Packet)
    ensures Touch(rec, p).key == rec.key && NewRecord(KeyOf(p), p.ts).key == KeyOf(p)
  {
  }

  // ----- synthetic packets change nothing, and volumes add up

  /** Reassembled packets, and packets without addresses, may be inserted anywhere
      without changing any flow. */
  lemma ReassembledIgnored(ps: seq<Packet>)
    ensures Track(TRACKER, ps) == Track(TRACKER, Taken(TRACKER, ps))
    ensures forall p :: TRACKER.takes(p) <==> !p.reassembled && p.srcIP != "" && p.dstIP != ""
  {
    OthersIgnored(TRACKER, ps);
  }

  function RecordPackets(r: FlowRecord): nat { r.fwd.packets + r.rev.packets }

  function RecordBytes(r: FlowRecord): nat { r.fwd.bytes + r.rev.bytes }

  ghost function PacketCounts(flows: Flows): map<FlowKey, int> { map k | k in flows :: RecordPackets(flows[k]) }

  ghost function ByteCounts(flows: Flows): map<FlowKey, int> { map k | k in flows :: RecordBytes(flows[k]) }

  function PayloadBytes(ps: seq<Packet>): nat {
    if ps == [] then 0 else PayloadBytes(ps[..|ps| - 1]) + |ps[|ps| - 1].payload|
  }

  /** The per-direction figures of a record that only `Count` and `Retransmission` touch. */
  lemma TouchVolumes(rec: FlowRecord, p: Packet)
    ensures RecordPackets(Touch(rec, p)) == RecordPackets(rec) + 1
    ensures RecordBytes(Touch(rec, p)) == RecordBytes(rec) + |p.payload|
  {
    assert SideOf(Touch(rec, p), Reversed(p)) == OwnSide(SideOf(rec, Reversed(p)), p);
    assert SideOf(Touch(rec, p), !Reversed(p)) == OtherSide(SideOf(rec, !Reversed(p)), p);
    OwnSideFacts(SideOf(rec, Reversed(p)), p);
  }

  /** What one packet adds to a sum over all flows. */
  lemma HandleAdds(flows: Flows, p: Packet)
    requires Tracked(p)
    ensures Total(PacketCounts(Handle(TRACKER, flows, p))) == Total(PacketCounts(flows)) + 1
    ensures Total(ByteCounts(Handle(TRACKER, flows, p))) == Total(ByteCounts(flows)) + |p.payload|
  {
    var k := KeyOf(p);
    var before := if k in flows then flows[k] else NewRecord(KeyOf(p), p.ts);
    TouchVolumes(before, p);
    RecordUpdate(flows, k, Touch(before, p));
  }

  lemma RecordUpdate(flows: Flows, k: FlowKey, r: FlowRecord)
    ensures Total(PacketCounts(flows[k := r])) ==
            Total(PacketCounts(flows)) - (if k in flows then RecordPackets(flows[k]) else 0) + RecordPackets(r)
    ensures Total(ByteCounts(flows[k := r])) ==
            Total(ByteCounts(flows)) - (if k in flows then RecordBytes(flows[k]) else 0) + RecordBytes(r)
  {
    TotalUpdate(PacketCounts(flows), k, RecordPackets(r));
    TotalUpdate(ByteCounts(flows), k, RecordBytes(r));
    assert PacketCounts(flows[k := r]) == PacketCounts(flows)[k := RecordPackets(r)];
    assert ByteCounts(flows[k := r]) == ByteCounts(flows)[k := RecordBytes(r)];
  }

  /** Main accounting theorem: packets and payload bytes over all flows are those of the
      tracked packets. */
  lemma {:induction false} VolumesAddUp(ps: seq<Packet>)
    ensures Total(PacketCounts(Track(TRACKER, ps))) == |Taken(TRACKER, ps)|
    ensures Total(ByteCounts(Track(TRACKER, ps))) == PayloadBytes(Taken(TRACKER, ps))
    decreases |ps|
  {
    if ps != [] {
      var front, p := ps[..|ps| - 1], ps[|ps| - 1];
      VolumesAddUp(front);
      var kept := Taken(TRACKER, front);
      if Tracked(p) {
        HandleAdds(Track(TRACKER, front), p);
        assert (kept + [p])[..|kept|] == kept;
      } else {
        assert Taken(TRACKER, ps) == kept;
      }
    }
  }

  /** The packets of one direction. */
  function Directed(qs: seq<Packet>, reversed: bool): seq<Packet> {
    if qs == [] then []
    else Directed(qs[..|qs| - 1], reversed) + (if Reversed(qs[|qs| - 1]) == reversed then [qs[|qs| - 1]] else [])
  }

  lemma TouchCounts(rec: FlowRecord, p: Packet, reversed: bool)
    ensures
      var s, t := SideOf(rec, reversed), SideOf(Touch(rec, p), reversed);
      && t.packets == s.packets + (if Reversed(p) == reversed then 1 else 0)
      && t.bytes == s.bytes + (if Reversed(p) == reversed then |p.payload| else 0)
  {
    OwnSideFacts(SideOf(rec, Reversed(p)), p);
  }

  lemma DirectedNext(qs: seq<Packet>, reversed: bool)
    requires qs != []
    ensures
      var front, p := qs[..|qs| - 1], qs[|qs| - 1];
      && |Directed(qs, reversed)| == |Directed(front, reversed)| + (if Reversed(p) == reversed then 1 else 0)
      && PayloadBytes(Directed(qs, reversed))
         == PayloadBytes(Directed(front, reversed)) + (if Reversed(p) == reversed then |p.payload| else 0)
  {
    var d, p := Directed(qs[..|qs| - 1], reversed), qs[|qs| - 1];
    if Reversed(p) == reversed {
      assert (d + [p])[..|d|] == d;
    } else {
      assert Directed(qs, reversed) == d;
    }
  }

  /** Each direction of a record counts exactly the packets and payload bytes that went
      that way. */
  lemma {:induction false} DirectionCounts(qs: seq<Packet>, reversed: bool)
    requires qs != []
    ensures var s := SideOf(FoldFlow(TRACKER, qs), reversed);
            s.packets == |Directed(qs, reversed)| && s.bytes == PayloadBytes(Directed(qs, reversed))
    decreases |qs|
  {
    var front, p := qs[..|qs| - 1], qs[|qs| - 1];
    DirectedNext(qs, reversed);
    if front == [] {
      TouchCounts(NewRecord(KeyOf(p), p.ts), p, reversed);
    } else {
      DirectionCounts(front, reversed);
      TouchCounts(FoldFlow(TRACKER, front), p, reversed);
    }
  }

  // ----- the throughput trend never reports more than the flow carried

  lemma SumZeros(n: nat)
    ensures Sum(Zeros(n)) == 0
  {
    if n > 0 {
      SumZeros(n - 1);
      assert Zeros(n)[..n - 1] == Zeros(n - 1);
    }
  }

  lemma SumUpdate(s: seq<nat>, i: nat, n: nat)
    requires i < |s|
    ensures Sum(s[i := s[i] + n]) == Sum(s) + n
    decreases |s|
  {
    var t := s[i := s[i] + n];
    if i < |s| - 1 {
      SumUpdate(s[..|s| - 1], i, n);
      assert t[..|s| - 1] == s[..|s| - 1][i := s[i] + n];
    } else {
      assert t[..|s| - 1] == s[..|s| - 1];
    }
  }

  lemma AddBucketSum(buckets: seq<nat>, idx: nat, n: nat)
    ensures Sum(AddBucket(buckets, idx, n)) == Sum(buckets) + n
    ensures |AddBucket(buckets, idx, n)| == (if |buckets| <= idx then idx + 1 else |buckets|)
  {
    if |buckets| <= idx {
      var z := Zeros(idx + 1 - |buckets|);
      SumZeros(|z|);
      SumAppend(buckets, z);
      SumUpdate(buckets + z, idx, n);
    } else {
      SumUpdate(buckets, idx, n);
    }
  }

  lemma TouchBuckets(rec: FlowRecord, p: Packet)
    requires Sum(rec.trend.buckets) <= RecordBytes(rec) && |rec.trend.buckets| <= MAX_BUCKETS
    ensures Sum(Touch(rec, p).trend.buckets) <= RecordBytes(Touch(rec, p)) && |Touch(rec, p).trend.buckets| <= MAX_BUCKETS
  {
    TouchVolumes(rec, p);
    var start := if rec.trend.start == 0 then p.ts else rec.trend.start;
    var idx := WholeSeconds(p.ts - start);
    if 0 <= idx < MAX_BUCKETS {
      AddBucketSum(rec.trend.buckets, idx, |p.payload|);
    }
  }

  /** Main trend bound: the buckets, hence the trend windows (see ThroughputTrend), hold at
      most an hour of seconds and never more bytes than the flow carried. */
  lemma {:induction false} TrendWithinFlow(qs: seq<Packet>)
    requires qs != []
    ensures var rec := FoldFlow(TRACKER, qs);
            Sum(rec.trend.buckets) <= RecordBytes(rec) && |rec.trend.buckets| <= 3600
    decreases |qs|
  {
    if |qs| == 1 {
      TouchBuckets(NewRecord(KeyOf(qs[0]), qs[0].ts), qs[0]);
    } else {
      TrendWithinFlow(qs[..|qs| - 1]);
      TouchBuckets(FoldFlow(TRACKER, qs[..|qs| - 1]), qs[|qs| - 1]);
    }
  }

  // ----- retransmissions

  /** The side that a packet's own direction has after it. */
  lemma TouchOwnSide(rec: FlowRecord, p: Packet)
    ensures
      var before, after := SideOf(rec, Reversed(p)), SideOf(Touch(rec, p), Reversed(p));
      && after.packets == before.packets + 1
      && (p.proto == "TCP" ==>
            var s := Retransmission(before, p);
            after.hiInit == s.hiInit && after.hiSeq == s.hiSeq && after.retrans == s.retrans
            && after.pending == Push(before, p).pending)
      && (p.proto != "TCP" ==> after == before.(packets := after.packets, bytes := after.bytes))
  {
    assert SideOf(Touch(rec, p), Reversed(p)) == OwnSide(SideOf(rec, Reversed(p)), p);
    OwnSideFacts(SideOf(rec, Reversed(p)), p);
  }

  lemma OwnSideFacts(s: Side, p: Packet)
    ensures
      var t := OwnSide(s, p);
      && t.packets == s.packets + 1 && t.bytes == s.bytes + |p.payload|
      && (p.proto == "TCP" ==>
            var r := Retransmission(s, p);
            t.hiInit == r.hiInit && t.hiSeq == r.hiSeq && t.retrans == r.retrans && t.pending == Push(s, p).pending)
      && (p.proto != "TCP" ==> t == s.(packets := t.packets, bytes := t.bytes))
  {
  }

  /** ... and the side of the opposite direction. */
  lemma TouchOtherSide(rec: FlowRecord, p: Packet)
    ensures
      var before, after := SideOf(rec, !Reversed(p)), SideOf(Touch(rec, p), !Reversed(p));
      after == if IsAck(p) then before.(pending := Kept(before.pending, p.tcpAck)) else before
  {
  }

  /** Retransmissions stay fewer than packets in a direction that has any. */
  predicate LossBound(s: Side) {
    && s.retrans <= s.packets
    && (s.retrans == s.packets ==> s.packets == 0)
    && (s.packets == 0 ==> !s.hiInit)
    && (!s.hiInit ==> s.retrans == 0)
  }

  ghost predicate LossBoundedRecord(rec: FlowRecord) { LossBound(rec.fwd) && LossBound(rec.rev) }

  lemma TouchLoss(rec: FlowRecord, p: Packet)
    requires LossBoundedRecord(rec)
    ensures LossBoundedRecord(Touch(rec, p)) && RecordPackets(Touch(rec, p)) > 0
  {
    TouchOwnSide(rec, p);
    TouchOtherSide(rec, p);
    TouchVolumes(rec, p);
  }

  lemma {:induction false} LossBounded(qs: seq<Packet>)
    requires qs != []
    ensures var rec := FoldFlow(TRACKER, qs); LossBoundedRecord(rec) && RecordPackets(rec) > 0
    decreases |qs|
  {
    var p := qs[|qs| - 1];
    if |qs| == 1 {
      TouchLoss(NewRecord(KeyOf(p), p.ts), p);
    } else {
      LossBounded(qs[..|qs| - 1]);
      TouchLoss(FoldFlow(TRACKER, qs[..|qs| - 1]), p);
    }
  }

  lemma LossRatio(r: nat, n: nat)
    requires r < n
    ensures 0.0 <= r as real / n as real * 100.0 < 100.0
  {
    var x, y := r as real, n as real;
    assert x / y * y == x;
    assert x / y < 1.0;
  }

  lemma RoundedBelowHundred(x: real)
    requires 0.0 <= x < 100.0
    ensures 0.0 <= Round2(x) <= 100.0
    ensures Round2(x) < 100.0 <==> x < 99.995
  {
    var f := (x * 100.0 + 0.5).Floor;
    assert 0 <= f <= 10000;
    assert Round2(x) < 100.0 <==> f < 10000;
  }

  lemma Scaled(q: real, x: real, y: real)
    requires y > 0.0 && q * y == x
    ensures q * 100.0 < 99.995 <==> 20000.0 * x < 19999.0 * y
  {
    var d := 19999.0 - 20000.0 * q;
    assert d * y == 19999.0 * y - 20000.0 * x;
    assert d > 0.0 <==> d * y > 0.0;
  }

  lemma RatioBelow(r: nat, n: nat)
    requires r < n
    ensures r as real / n as real * 100.0 < 99.995 <==> 20000 * r < 19999 * n
  {
    var x, y := r as real, n as real;
    Scaled(x / y, x, y);
    assert (20000 * r) as real == 20000.0 * x && (19999 * n) as real == 19999.0 * y;
  }

  lemma ReportedLossOf(rec: FlowRecord)
    requires LossBoundedRecord(rec) && RecordPackets(rec) > 0
    ensures Retransmissions(rec) < RecordPackets(rec) && 0.0 <= ReportedLoss(rec) <= 100.0
    ensures ReportedLoss(rec) < 100.0 <==> 20000 * Retransmissions(rec) < 19999 * RecordPackets(rec)
  {
    var r, n := Retransmissions(rec), RecordPackets(rec);
    assert LossPercent(rec) == r as real / n as real * 100.0;
    LossRatio(r, n);
    RoundedBelowHundred(r as real / n as real * 100.0);
    RatioBelow(r, n);
  }

  /** A flow's record counts every packet of the flow. */
  lemma {:induction false} RecordCounts(qs: seq<Packet>)
    requires qs != []
    ensures RecordPackets(FoldFlow(TRACKER, qs)) == |qs|
    decreases |qs|
  {
    var p := qs[|qs| - 1];
    if |qs| == 1 {
      TouchVolumes(NewRecord(KeyOf(p), p.ts), p);
    } else {
      RecordCounts(qs[..|qs| - 1]);
      TouchVolumes(FoldFlow(TRACKER, qs[..|qs| - 1]), p);
    }
  }

  function Retransmissions(rec: FlowRecord): nat { rec.fwd.retrans + rec.rev.retrans }

  /** Main loss theorem: retransmissions are always fewer than packets, and the reported
      loss is at most 100 percent. Rounding can bring it to 100: it stays below if and only
      if retransmissions are less than 19999 in 20000 packets. */
  lemma LossReportedExactly(qs: seq<Packet>)
    requires qs != []
    ensures var rec := FoldFlow(TRACKER, qs);
            && Retransmissions(rec) < |qs|
            && 0.0 <= ReportedLoss(rec) <= 100.0
            && (ReportedLoss(rec) < 100.0 <==> 20000 * Retransmissions(rec) < 19999 * |qs|)
  {
    LossBounded(qs);
    RecordCounts(qs);
    ReportedLossOf(FoldFlow(TRACKER, qs));
  }

  /** One data segment sent k times. */
  ghost function Repeated(p: Packet, k: nat): seq<Packet> { seq(k, _ => p) }

  lemma {:induction false} RepeatedCounts(p: Packet, k: nat)
    requires k > 0 && p.proto == "TCP" && 0 < PayLen(p) < TWO31 && p.tcpSeq < TWO32
    ensures var s := SideOf(FoldFlow(TRACKER, Repeated(p, k)), Reversed(p));
            s.hiInit && s.hiSeq == NextSeq(p) && s.retrans == k - 1
    ensures SideOf(FoldFlow(TRACKER, Repeated(p, k)), !Reversed(p)).retrans == 0
    decreases k
  {
    var qs := Repeated(p, k);
    if k == 1 {
      RepeatedNext(NewRecord(KeyOf(p), p.ts), p);
    } else {
      RepeatedCounts(p, k - 1);
      assert qs[..k - 1] == Repeated(p, k - 1);
      RepeatedNext(FoldFlow(TRACKER, Repeated(p, k - 1)), p);
    }
  }

  lemma RepeatedNext(rec: FlowRecord, p: Packet)
    requires p.proto == "TCP" && 0 < PayLen(p) < TWO31 && p.tcpSeq < TWO32
    ensures
      var s, t := SideOf(rec, Reversed(p)), SideOf(Touch(rec, p), Reversed(p));
      && (!s.hiInit ==> t.hiInit && t.hiSeq == NextSeq(p) && t.retrans == s.retrans)
      && (s.hiInit && s.hiSeq == NextSeq(p) ==> t.hiInit && t.hiSeq == s.hiSeq && t.retrans == s.retrans + 1)
    ensures SideOf(Touch(rec, p), !Reversed(p)).retrans == SideOf(rec, !Reversed(p)).retrans
  {
    TouchOwnSide(rec, p);
    TouchOtherSide(rec, p);
    Mod32Add(p.tcpSeq + PayLen(p), p.tcpSeq);
    assert SeqBefore(p.tcpSeq, NextSeq(p));
  }

  /** A flow that only repeats one data segment reports 100 percent loss from the 20000th
      copy on. */
  lemma RepeatedSegmentLoss(p: Packet, k: nat)
    requires k > 0 && p.proto == "TCP" && 0 < PayLen(p) < TWO31 && p.tcpSeq < TWO32
    ensures ReportedLoss(FoldFlow(TRACKER, Repeated(p, k))) == 100.0 <==> k >= 20000
  {
    RepeatedCounts(p, k);
    LossReportedExactly(Repeated(p, k));
  }

  /** The reference: sequence numbers without bound. */
  datatype Reference = Reference(init: bool, hi: int, retrans: nat)

  /** A data segment counts as a retransmission when it starts below the high mark. */
  function RefStep(r: Reference, off: int, len: nat): Reference {
    if !r.init then Reference(true, off + len, r.retrans)
    else if off < r.hi then r.(retrans := r.retrans + 1)
    else r.(hi := off + len)
  }

  predicate IsData(p: Packet, reversed: bool) { p.proto == "TCP" && Reversed(p) == reversed && PayLen(p) > 0 }

  /** The reference run over one direction; `offs[i]` is the true offset of packet i. */
  function RefRun(qs: seq<Packet>, offs: seq<int>, reversed: bool): Reference
    requires |qs| == |offs|
  {
    if qs == [] then Reference(false, 0, 0)
    else
      var n := |qs| - 1;
      var r := RefRun(qs[..n], offs[..n], reversed);
      if IsData(qs[n], reversed) then RefStep(r, offs[n], PayLen(qs[n])) else r
  }

  /** The true offsets agree with the 32-bit ones and stay within half the sequence
      space of the high mark. */
  predicate InWindow(qs: seq<Packet>, offs: seq<int>, reversed: bool)
    requires |qs| == |offs|
  {
    qs != [] ==>
      var n := |qs| - 1;
      var r := RefRun(qs[..n], offs[..n], reversed);
      && InWindow(qs[..n], offs[..n], reversed)
      && (IsData(qs[n], reversed) ==>
            && qs[n].tcpSeq == offs[n] % TWO32
            && (r.init ==> -TWO31 <= r.hi - offs[n] < TWO31))
  }

  /** For positions up to one sequence space apart, the 32-bit comparison is the true one if
      and only if the high mark is less than half a space ahead and at most half behind. */
  lemma SeqBeforeExactly(off: int, hi: int)
    requires -TWO32 < hi - off <= TWO32
    ensures (SeqBefore(off % TWO32, hi % TWO32) <==> off < hi) <==> -TWO31 <= hi - off < TWO31
  {
    var d := hi - off;
    Mod32Add(hi, off);
    if d == TWO32 { Mod32Unique(d, 0, 1); } else if d >= 0 { Mod32Unique(d, d, 0); } else { Mod32Unique(d, d + TWO32, -1); }
  }

  /** Half a space ahead it is not: the retransmission looks new. */
  lemma SeqBeforeFailsOutside(off: nat)
    ensures !SeqBefore(off % TWO32, (off + TWO31) % TWO32)
  {
    SeqBeforeExactly(off, off + TWO31);
  }

  ghost predicate Refines(s: Side, r: Reference) {
    s.hiInit == r.init && s.retrans == r.retrans && (r.init ==> s.hiSeq == r.hi % TWO32)
  }

  lemma TouchRefines(rec: FlowRecord, p: Packet, off: int, reversed: bool, r: Reference)
    requires Refines(SideOf(rec, reversed), r)
    requires IsData(p, reversed) ==> p.tcpSeq == off % TWO32 && (r.init ==> -TWO31 <= r.hi - off < TWO31)
    ensures Refines(SideOf(Touch(rec, p), reversed), if IsData(p, reversed) then RefStep(r, off, PayLen(p)) else r)
  {
    TouchOwnSide(rec, p);
    TouchOtherSide(rec, p);
    if IsData(p, reversed) {
      if r.init { SeqBeforeExactly(off, r.hi); }
      Mod32Add(off, PayLen(p));
    }
  }

  /** Main sequence-number theorem: over every run inside the window, the uint32 high mark
      is the true one modulo 2^32 and the retransmission count is the number of data
      segments that truly start below it. */
  lemma {:induction false} SequenceRefinement(qs: seq<Packet>, offs: seq<int>, reversed: bool)
    requires qs != [] && |qs| == |offs| && InWindow(qs, offs, reversed)
    ensures Refines(SideOf(FoldFlow(TRACKER, qs), reversed), RefRun(qs, offs, reversed))
    decreases |qs|
  {
    var n := |qs| - 1;
    var p := qs[n];
    var before := if n == 0 then NewRecord(KeyOf(p), p.ts) else FoldFlow(TRACKER, qs[..n]);
    if n > 0 { SequenceRefinement(qs[..n], offs[..n], reversed); }
    var r := RefRun(qs[..n], offs[..n], reversed);
    TouchRefines(before, p, offs[n], reversed, r);
  }

  // ----- pending segments

  /** What a packet means for the pending list of one direction. */
  datatype Move = Idle | Pushed(seg: Pending) | Acked(ack: nat)

  /** A TCP segment with PSH and data. */
  predicate IsPush(p: Packet) { p.proto == "TCP" && PSH in p.flags && |p.payload| % TWO32 > 0 }

  /** A TCP segment with ACK and a non-zero acknowledgement number. */
  predicate IsAck(p: Packet) { p.proto == "TCP" && ACK in p.flags && p.tcpAck != 0 }

  function MoveOf(p: Packet, reversed: bool): Move {
    if Reversed(p) == reversed then if IsPush(p) then Pushed(SegmentOf(p)) else Idle
    else if IsAck(p) then Acked(p.tcpAck) else Idle
  }

  /** A pushed segment is covered by an acknowledgement that reaches its end: for true
      positions up to one sequence space apart, exactly if they are within half of it. */
  lemma CoveredExactly(p: Packet, off: int, ack: int)
    requires p.tcpSeq == off % TWO32 && -TWO32 < off + |p.payload| % TWO32 - ack <= TWO32
    ensures (Covered(SegmentOf(p), ack % TWO32) <==> ack >= off + |p.payload| % TWO32)
            <==> -TWO31 <= off + |p.payload| % TWO32 - ack < TWO31
    ensures SegmentOf(p).sentAt == p.ts
  {
    Mod32Add(off, |p.payload| % TWO32);
    SeqBeforeExactly(ack, off + |p.payload| % TWO32);
  }

  function Moves(qs: seq<Packet>, reversed: bool): (r: seq<Move>)
    ensures |r| == |qs|
  {
    seq(|qs|, i requires 0 <= i < |qs| => MoveOf(qs[i], reversed))
  }

  /** Move i pushed a segment that no later acknowledgement covers. */
  ghost predicate Outstanding(ms: seq<Move>, i: nat)
    requires i < |ms|
  {
    ms[i].Pushed? && forall j :: i < j < |ms| && ms[j].Acked? ==> !Covered(ms[i].seg, ms[j].ack)
  }

  /** The outstanding segments among the first n moves, in order. */
  ghost function OutstandingSegments(ms: seq<Move>, n: nat): seq<Pending>
    requires n <= |ms|
  {
    if n == 0 then []
    else OutstandingSegments(ms, n - 1) + (if Outstanding(ms, n - 1) then [ms[n - 1].seg] else [])
  }

  lemma KeptAppend(a: seq<Pending>, s: Pending, ack: nat)
    ensures Kept(a + [s], ack) == Kept(a, ack) + (if Covered(s, ack) then [] else [s])
  {
    assert (a + [s])[..|a|] == a;
  }

  lemma StillOutstanding(ms: seq<Move>, m: Move, i: nat)
    requires i < |ms|
    ensures Outstanding(ms + [m], i) <==> Outstanding(ms, i) && !(m.Acked? && Covered(ms[i].seg, m.ack))
  {
    var more := ms + [m];
    assert more[|ms|] == m;
    assert forall j :: i < j < |ms| ==> more[j] == ms[j];
  }

  /** One more move filters what is outstanding by its acknowledgement. */
  lemma {:induction false} OutstandingNext(ms: seq<Move>, m: Move, n: nat)
    requires n <= |ms|
    ensures OutstandingSegments(ms + [m], n) ==
            if m.Acked? then Kept(OutstandingSegments(ms, n), m.ack) else OutstandingSegments(ms, n)
  {
    if n > 0 {
      OutstandingNext(ms, m, n - 1);
      var i := n - 1;
      var front := OutstandingSegments(ms, i);
      StillOutstanding(ms, m, i);
      if Outstanding(ms, i) {
        if m.Acked? { KeptAppend(front, ms[i].seg, m.ack); }
      } else {
        assert OutstandingSegments(ms, n) == front;
      }
    }
  }

  /** The pending list after one move. */
  function AfterMove(pending: seq<Pending>, m: Move): seq<Pending> {
    match m
    case Idle => pending
    case Pushed(s) => pending + [s]
    case Acked(ack) => Kept(pending, ack)
  }

  lemma TouchPending(rec: FlowRecord, p: Packet, reversed: bool)
    ensures SideOf(Touch(rec, p), reversed).pending == AfterMove(SideOf(rec, reversed).pending, MoveOf(p, reversed))
  {
    TouchOwnSide(rec, p);
    TouchOtherSide(rec, p);
  }

  lemma OutstandingAfter(ms: seq<Move>, m: Move)
    ensures OutstandingSegments(ms + [m], |ms| + 1) == AfterMove(OutstandingSegments(ms, |ms|), m)
  {
    OutstandingNext(ms, m, |ms|);
    assert Outstanding(ms + [m], |ms|) <==> m.Pushed?;
  }

  function PendingAfter(ms: seq<Move>): seq<Pending> {
    if ms == [] then [] else AfterMove(PendingAfter(ms[..|ms| - 1]), ms[|ms| - 1])
  }

  lemma {:induction false} PendingAfterIsOutstanding(ms: seq<Move>)
    ensures PendingAfter(ms) == OutstandingSegments(ms, |ms|)
    decreases |ms|
  {
    if ms != [] {
      var front, m := ms[..|ms| - 1], ms[|ms| - 1];
      PendingAfterIsOutstanding(front);
      OutstandingAfter(front, m);
      assert ms == front + [m];
    }
  }

  /** The pending list evolves move by move, whatever else a record holds. */
  lemma {:induction false} PendingOfFold<P(!new), K, R(!new)>(
    d: Decoder<P, K, R>, pending: R -> seq<Pending>, move: P -> Move, qs: seq<P>, ms: seq<Move>)
    requires qs != [] && |ms| == |qs| && forall i :: 0 <= i < |qs| ==> ms[i] == move(qs[i])
    requires forall p :: pending(d.first(p)) == []
    requires forall r, p :: pending(d.touch(r, p)) == AfterMove(pending(r), move(p))
    ensures pending(FoldFlow(d, qs)) == PendingAfter(ms)
    decreases |qs|
  {
    var n := |qs| - 1;
    if n > 0 {
      PendingOfFold(d, pending, move, qs[..n], ms[..n]);
    } else {
      assert ms[..0] == [];
    }
  }

  function PendingOn(reversed: bool): FlowRecord -> seq<Pending> {
    (rec: FlowRecord) => SideOf(rec, reversed).pending
  }

  function MoveOn(reversed: bool): Packet -> Move { (p: Packet) => MoveOf(p, reversed) }

  lemma FoldPending(qs: seq<Packet>, reversed: bool)
    requires qs != []
    ensures SideOf(FoldFlow(TRACKER, qs), reversed).pending == PendingAfter(Moves(qs, reversed))
  {
    forall rec: FlowRecord, p: Packet
      ensures PendingOn(reversed)(TRACKER.touch(rec, p)) == AfterMove(PendingOn(reversed)(rec), MoveOn(reversed)(p))
    {
      TouchPending(rec, p, reversed);
    }
    PendingOfFold(TRACKER, PendingOn(reversed), MoveOn(reversed), qs, Moves(qs, reversed));
  }

  /** Main pending theorem: at every point of a run, a direction's pending list is, in
      order, exactly its pushed data segments that no later opposite non-zero
      acknowledgement covers. */
  lemma PendingExact(qs: seq<Packet>, reversed: bool)
    requires qs != []
    ensures SideOf(FoldFlow(TRACKER, qs), reversed).pending == OutstandingSegments(Moves(qs, reversed), |qs|)
  {
    FoldPending(qs, reversed);
    PendingAfterIsOutstanding(Moves(qs, reversed));
  }

  // ----- round-trip samples

  lemma TouchSamples(rec: FlowRecord, p: Packet)
    ensures
      Touch(rec, p).samples == rec.samples +
      if IsAck(p) then Sampled(SideOf(rec, !Reversed(p)).pending, p.tcpAck, p.ts) else []
  {
  }

  /** `a` acknowledges the segment of `p` from the other side. */
  predicate Covers(a: Packet, p: Packet) {
    IsAck(a) && Reversed(a) != Reversed(p) && Covered(SegmentOf(p), a.tcpAck)
  }

  /** Packet j is the first to acknowledge the segment pushed by packet i. */
  ghost predicate FirstCover(qs: seq<Packet>, i: nat, j: nat) {
    && i < j < |qs| && IsPush(qs[i]) && Covers(qs[j], qs[i])
    && forall m :: i < m < j ==> !Covers(qs[m], qs[i])
  }

  /** The samples packet j yields for the segments among the first i packets. */
  ghost function SamplesBy(qs: seq<Packet>, j: nat, i: nat): seq<Sample>
    requires i <= j < |qs|
  {
    if i == 0 then []
    else
      SamplesBy(qs, j, i - 1) +
      (if FirstCover(qs, i - 1, j) && qs[j].ts > qs[i - 1].ts then [Sample(qs[j].ts, qs[j].ts - qs[i - 1].ts)] else [])
  }

  ghost function AllSamples(qs: seq<Packet>, n: nat): seq<Sample>
    requires n <= |qs|
  {
    if n == 0 then [] else AllSamples(qs, n - 1) + SamplesBy(qs, n - 1, n - 1)
  }

  lemma {:induction false} SamplesByFront(qs: seq<Packet>, p: Packet, j: nat, i: nat)
    requires i <= j < |qs|
    ensures SamplesBy(qs + [p], j, i) == SamplesBy(qs, j, i)
    decreases i
  {
    if i > 0 {
      SamplesByFront(qs, p, j, i - 1);
      assert forall m :: 0 <= m < |qs| ==> (qs + [p])[m] == qs[m];
      assert FirstCover(qs + [p], i - 1, j) <==> FirstCover(qs, i - 1, j);
    }
  }

  lemma {:induction false} AllSamplesFront(qs: seq<Packet>, p: Packet, n: nat)
    requires n <= |qs|
    ensures AllSamples(qs + [p], n) == AllSamples(qs, n)
    decreases n
  {
    if n > 0 {
      var more := qs + [p];
      AllSamplesFront(qs, p, n - 1);
      SamplesByFront(qs, p, n - 1, n - 1);
      assert AllSamples(more, n) == AllSamples(more, n - 1) + SamplesBy(more, n - 1, n - 1);
    }
  }

  /** A segment is outstanding before the last packet exactly if nothing covered it yet. */
  lemma OutstandingFirstCover(qs: seq<Packet>, p: Packet, i: nat)
    requires i < |qs|
    ensures
      var ms := Moves(qs, !Reversed(p));
      FirstCover(qs + [p], i, |qs|) <==> Outstanding(ms, i) && Covers(p, qs[i])
    ensures Outstanding(Moves(qs, !Reversed(p)), i) ==> Moves(qs, !Reversed(p))[i].seg == SegmentOf(qs[i])
    ensures Outstanding(Moves(qs, !Reversed(p)), i) ==> Reversed(qs[i]) != Reversed(p)
  {
    var more, ms := qs + [p], Moves(qs, !Reversed(p));
    assert more[|qs|] == p && forall m :: 0 <= m < |qs| ==> more[m] == qs[m];
    if Reversed(qs[i]) != Reversed(p) && IsPush(qs[i]) {
      forall m | i < m < |qs|
        ensures Covers(more[m], qs[i]) <==> ms[m].Acked? && Covered(ms[i].seg, ms[m].ack)
      {
      }
    }
  }

  lemma SampledAppend(a: seq<Pending>, s: Pending, ack: nat, now: int)
    ensures Sampled(a + [s], ack, now) ==
            Sampled(a, ack, now) + (if Covered(s, ack) && now > s.sentAt then [Sample(now, now - s.sentAt)] else [])
  {
    assert (a + [s])[..|a|] == a;
  }

  lemma {:induction false} SampledOutstanding(qs: seq<Packet>, p: Packet, i: nat)
    requires i <= |qs| && IsAck(p)
    ensures Sampled(OutstandingSegments(Moves(qs, !Reversed(p)), i), p.tcpAck, p.ts) == SamplesBy(qs + [p], |qs|, i)
    decreases i
  {
    if i > 0 {
      SampledOutstanding(qs, p, i - 1);
      SampledOutstandingNext(qs, p, i - 1, Moves(qs, !Reversed(p)));
    }
  }

  lemma SampledOutstandingNext(qs: seq<Packet>, p: Packet, i: nat, ms: seq<Move>)
    requires i < |qs| && IsAck(p) && ms == Moves(qs, !Reversed(p))
    requires Sampled(OutstandingSegments(ms, i), p.tcpAck, p.ts) == SamplesBy(qs + [p], |qs|, i)
    ensures Sampled(OutstandingSegments(ms, i + 1), p.tcpAck, p.ts) == SamplesBy(qs + [p], |qs|, i + 1)
  {
    assert (qs + [p])[|qs|] == p && (qs + [p])[i] == qs[i];
    var front := OutstandingSegments(ms, i);
    OutstandingFirstCover(qs, p, i);
    if Outstanding(ms, i) {
      SampledAppend(front, ms[i].seg, p.tcpAck, p.ts);
    } else {
      assert OutstandingSegments(ms, i + 1) == front;
    }
  }

  lemma {:induction false} NoSamplesWithoutAck(qs: seq<Packet>, p: Packet, i: nat)
    requires i <= |qs| && !IsAck(p)
    ensures SamplesBy(qs + [p], |qs|, i) == []
    decreases i
  {
    if i > 0 { NoSamplesWithoutAck(qs, p, i - 1); }
  }

  /** Main sample theorem: the round-trip samples are, in order, one for each pushed
      segment and the first later packet that acknowledges it, if that came later in time. */
  lemma {:induction false} SamplesExact(qs: seq<Packet>)
    requires qs != []
    ensures FoldFlow(TRACKER, qs).samples == AllSamples(qs, |qs|)
    decreases |qs|
  {
    var n := |qs| - 1;
    var front, p := qs[..n], qs[n];
    assert qs == front + [p];
    AllSamplesFront(front, p, n);
    var before := if n == 0 then NewRecord(KeyOf(p), p.ts) else FoldFlow(TRACKER, front);
    if n > 0 {
      SamplesExact(front);
      PendingExact(front, !Reversed(p));
    }
    SamplesNext(front, before, p);
  }

  lemma SamplesNext(qs: seq<Packet>, rec: FlowRecord, p: Packet)
    requires SideOf(rec, !Reversed(p)).pending == OutstandingSegments(Moves(qs, !Reversed(p)), |qs|)
    ensures Touch(rec, p).samples == rec.samples + SamplesBy(qs + [p], |qs|, |qs|)
  {
    TouchSamples(rec, p);
    if IsAck(p) {
      SampledOutstanding(qs, p, |qs|);
    } else {
      NoSamplesWithoutAck(qs, p, |qs|);
    }
  }

  /** Hence a segment is the source of at most one sample: two packets cannot both be the
      first to acknowledge it. */
  lemma OneSamplePerSegment(qs: seq<Packet>, i: nat, j: nat, k: nat)
    requires FirstCover(qs, i, j) && FirstCover(qs, i, k)
    ensures j == k
  {
    assert !(j < k) && !(k < j);
  }

  // ----- RST authenticity

  predicate IsRst(p: Packet) { p.proto == "TCP" && Flag(p, RST) }

  /** A packet that may set the baseline TTL of its direction: never an RST. */
  predicate IsBaseline(p: Packet, reversed: bool) {
    p.proto == "TCP" && Reversed(p) == reversed && !Flag(p, RST) && p.ttl > 0
  }

  /** `i` is the first index at which `test` holds. */
  ghost predicate FirstAt<P>(qs: seq<P>, test: P -> bool, i: nat) {
    i < |qs| && test(qs[i]) && forall j :: 0 <= j < i ==> !test(qs[j])
  }

  ghost predicate Never<P>(qs: seq<P>, test: P -> bool) { forall j :: 0 <= j < |qs| ==> !test(qs[j]) }

  /** A slot filled by the first packet that passes a test holds that packet's value. */
  ghost predicate Holds<P, V>(qs: seq<P>, test: P -> bool, value: P -> V, filled: bool, v: V) {
    && (!filled ==> Never(qs, test))
    && (filled ==> exists i: nat :: FirstAt(qs, test, i) && v == value(qs[i]))
  }

  lemma HoldsNext<P, V>(qs: seq<P>, p: P, test: P -> bool, value: P -> V, filled: bool, v: V)
    requires Holds(qs, test, value, filled, v)
    ensures filled ==> Holds(qs + [p], test, value, true, v)
    ensures !filled && test(p) ==> Holds(qs + [p], test, value, true, value(p))
    ensures !filled && !test(p) ==> Holds(qs + [p], test, value, false, v)
  {
    var more := qs + [p];
    assert more[|qs|] == p && forall j :: 0 <= j < |qs| ==> more[j] == qs[j];
    if filled {
      var i: nat :| FirstAt(qs, test, i) && v == value(qs[i]);
      assert FirstAt(more, test, i);
    } else if test(p) {
      assert FirstAt(more, test, |qs|);
    }
  }

  function TtlOf(p: Packet): nat { p.ttl }

  function RstFacts(p: Packet): (bool, nat, nat) { (Reversed(p), p.ttl, p.ipID) }

  function BaselineTest(reversed: bool): Packet -> bool { (p: Packet) => IsBaseline(p, reversed) }

  function RstSlot(c: Closing): (bool, nat, nat) { (c.rstFromReversed, c.rstTTL, c.rstIPID) }

  lemma TouchEvidence(rec: FlowRecord, p: Packet, reversed: bool)
    ensures
      var before, after := SideOf(rec, reversed), SideOf(Touch(rec, p), reversed);
      && after.ttlSet == (before.ttlSet || IsBaseline(p, reversed))
      && (before.ttlSet ==> after.ttl == before.ttl)
      && (!before.ttlSet && IsBaseline(p, reversed) ==> after.ttl == p.ttl)
    ensures
      var before, after := rec.closing, Touch(rec, p).closing;
      && after.rstSeen == (before.rstSeen || IsRst(p))
      && (before.rstSeen ==> RstSlot(after) == RstSlot(before))
      && (!before.rstSeen && IsRst(p) ==> RstSlot(after) == RstFacts(p))
  {
  }

  /** Main RST theorem: the RST a flow is judged by is its first, and it is compared with the
      TTL of the first packet of that direction that is not an RST, so an injected RST is
      never its own baseline. */
  lemma {:induction false} RstEvidence(qs: seq<Packet>, reversed: bool)
    requires qs != []
    ensures Evidence(qs, FoldFlow(TRACKER, qs), reversed)
    decreases |qs|
  {
    var n := |qs| - 1;
    var front, p := qs[..n], qs[n];
    assert qs == front + [p];
    if n > 0 {
      RstEvidence(front, reversed);
      EvidenceNext(front, FoldFlow(TRACKER, front), p, reversed);
    } else {
      EvidenceNext(front, NewRecord(KeyOf(p), p.ts), p, reversed);
    }
  }

  ghost predicate Evidence(qs: seq<Packet>, rec: FlowRecord, reversed: bool) {
    && Holds(qs, BaselineTest(reversed), TtlOf, SideOf(rec, reversed).ttlSet, SideOf(rec, reversed).ttl)
    && Holds(qs, IsRst, RstFacts, rec.closing.rstSeen, RstSlot(rec.closing))
  }

  lemma EvidenceNext(qs: seq<Packet>, rec: FlowRecord, p: Packet, reversed: bool)
    requires Evidence(qs, rec, reversed)
    ensures Evidence(qs + [p], Touch(rec, p), reversed)
  {
    var side := SideOf(rec, reversed);
    TouchEvidence(rec, p, reversed);
    HoldsNext(qs, p, BaselineTest(reversed), TtlOf, side.ttlSet, side.ttl);
    HoldsNext(qs, p, IsRst, RstFacts, rec.closing.rstSeen, RstSlot(rec.closing));
    UnfilledAny(qs + [p], BaselineTest(reversed), TtlOf, side.ttl, SideOf(Touch(rec, p), reversed).ttl);
    UnfilledAny(qs + [p], IsRst, RstFacts, RstSlot(rec.closing), RstSlot(Touch(rec, p).closing));
  }

  lemma UnfilledAny<P, V>(qs: seq<P>, test: P -> bool, value: P -> V, v: V, w: V)
    ensures Holds(qs, test, value, false, v) == Holds(qs, test, value, false, w)
  {
  }

  /** The verdict, exactly. There is none without an RST, or if the first carries no TTL. It
      is unknown if the first RST's direction has no other packet with a TTL. Otherwise the
      flow is suspicious if and only if the first such packet is five or more hops away. */
  lemma VerdictExactly(qs: seq<Packet>)
    requires qs != []
    ensures Never(qs, IsRst) ==> RstVerdict(FoldFlow(TRACKER, qs)) == Absent
    ensures forall r: nat :: FirstAt(qs, IsRst, r) && qs[r].ttl == 0 ==> RstVerdict(FoldFlow(TRACKER, qs)) == Absent
    ensures forall r: nat :: FirstAt(qs, IsRst, r) && qs[r].ttl > 0 && Never(qs, BaselineTest(Reversed(qs[r]))) ==>
              RstVerdict(FoldFlow(TRACKER, qs)) == Unknown
  {
    RstEvidence(qs, true);
    RstEvidence(qs, false);
    var rec := FoldFlow(TRACKER, qs);
    if Never(qs, IsRst) {
      NeverFilled(qs, IsRst, RstFacts, rec.closing.rstSeen, RstSlot(rec.closing));
    }
    forall r: nat | FirstAt(qs, IsRst, r)
      ensures qs[r].ttl == 0 ==> RstVerdict(rec) == Absent
      ensures qs[r].ttl > 0 && Never(qs, BaselineTest(Reversed(qs[r]))) ==> RstVerdict(rec) == Unknown
    {
      FirstValue(qs, IsRst, RstFacts, rec.closing.rstSeen, RstSlot(rec.closing), r);
      var side := SideOf(rec, Reversed(qs[r]));
      if Never(qs, BaselineTest(Reversed(qs[r]))) {
        NeverFilled(qs, BaselineTest(Reversed(qs[r])), TtlOf, side.ttlSet, side.ttl);
      }
    }
  }

  lemma NeverFilled<P, V>(qs: seq<P>, test: P -> bool, value: P -> V, filled: bool, v: V)
    requires Holds(qs, test, value, filled, v) && Never(qs, test)
    ensures !filled
  {
  }

  /** A flow whose first RST is as far as five hops from its direction's first other packet
      is suspicious, and only such a flow is. */
  lemma SuspiciousExactly(qs: seq<Packet>, r: nat, b: nat)
    requires qs != [] && FirstAt(qs, IsRst, r) && FirstAt(qs, BaselineTest(Reversed(qs[r])), b) && qs[r].ttl > 0
    ensures RstVerdict(FoldFlow(TRACKER, qs)) == if -5 < qs[r].ttl - qs[b].ttl < 5 then Genuine else Suspicious
  {
    RstEvidence(qs, Reversed(qs[r]));
    var rec := FoldFlow(TRACKER, qs);
    FirstValue(qs, IsRst, RstFacts, rec.closing.rstSeen, RstSlot(rec.closing), r);
    var side := SideOf(rec, Reversed(qs[r]));
    FirstValue(qs, BaselineTest(Reversed(qs[r])), TtlOf, side.ttlSet, side.ttl, b);
  }

  lemma FirstValue<P, V>(qs: seq<P>, test: P -> bool, value: P -> V, filled: bool, v: V, i: nat)
    requires Holds(qs, test, value, filled, v) && FirstAt(qs, test, i)
    ensures filled && v == value(qs[i])
  {
    assert test(qs[i]);
    var j: nat :| FirstAt(qs, test, j) && v == value(qs[j]);
    assert !(j < i) && !(i < j);
  }

  // ----- handshake round trip

  /** A forward SYN with a capture time (a zero time counts as none). */
  predicate IsSyn(p: Packet) { p.proto == "TCP" && Flag(p, SYN) && !Flag(p, ACK) && !Reversed(p) && p.ts != 0 }

  function TimeOf(p: Packet): int { p.ts }

  /** A reverse SYN-ACK. */
  predicate IsSynAck(p: Packet) { p.proto == "TCP" && Flag(p, SYN) && Flag(p, ACK) && Reversed(p) }

  /** Packet j is a reverse SYN-ACK after a timed forward SYN. */
  ghost predicate IsAnswer(qs: seq<Packet>, j: nat) {
    j < |qs| && IsSynAck(qs[j]) && exists i :: 0 <= i < j && IsSyn(qs[i])
  }

  /** Packet j is the first answer that has a capture time. */
  ghost predicate FirstTimedAnswer(qs: seq<Packet>, j: nat) {
    && IsAnswer(qs, j) && qs[j].ts != 0
    && forall k: nat :: k < j && IsAnswer(qs, k) ==> qs[k].ts == 0
  }

  /** `t` is the time of the first timed answer, 0 without one. */
  ghost predicate AnswerTime(qs: seq<Packet>, t: int) {
    && (t == 0 ==> forall j: nat :: IsAnswer(qs, j) ==> qs[j].ts == 0)
    && (t != 0 ==> exists j: nat :: FirstTimedAnswer(qs, j) && qs[j].ts == t)
  }

  ghost predicate HandshakeOk(qs: seq<Packet>, h: Handshake) {
    && Holds(qs, IsSyn, TimeOf, h.synTime != 0, h.synTime)
    && AnswerTime(qs, h.synAckTime)
    && (h.hasRTT <==> exists j: nat :: IsAnswer(qs, j))
    && (h.hasRTT ==> h.nanos == 2 * (h.synAckTime - h.synTime))
  }

  lemma AnswersNext(qs: seq<Packet>, p: Packet)
    ensures forall j: nat :: j < |qs| ==> (IsAnswer(qs + [p], j) <==> IsAnswer(qs, j))
    ensures IsAnswer(qs + [p], |qs|) <==> IsSynAck(p) && !Never(qs, IsSyn)
  {
    var more := qs + [p];
    assert more[|qs|] == p && forall j :: 0 <= j < |qs| ==> more[j] == qs[j];
    if i :| 0 <= i < |qs| && IsSyn(qs[i]) {
      assert IsSyn(more[i]);
    }
  }

  lemma AnswerTimeNext(qs: seq<Packet>, p: Packet, t: int)
    requires AnswerTime(qs, t)
    ensures AnswerTime(qs + [p], if t == 0 && IsSynAck(p) && !Never(qs, IsSyn) then p.ts else t)
  {
    var more := qs + [p];
    AnswersNext(qs, p);
    if t != 0 {
      var j: nat :| FirstTimedAnswer(qs, j) && qs[j].ts == t;
      assert FirstTimedAnswer(more, j);
    } else if IsAnswer(more, |qs|) && p.ts != 0 {
      assert FirstTimedAnswer(more, |qs|);
    }
  }

  lemma AnsweredNext(qs: seq<Packet>, p: Packet)
    ensures (exists j: nat :: IsAnswer(qs + [p], j))
            <==> (exists j: nat :: IsAnswer(qs, j)) || (IsSynAck(p) && !Never(qs, IsSyn))
  {
    AnswersNext(qs, p);
    if j: nat :| IsAnswer(qs, j) {
      assert IsAnswer(qs + [p], j);
    }
  }

  lemma HandshakeNext(qs: seq<Packet>, h: Handshake, p: Packet)
    requires HandshakeOk(qs, h)
    ensures HandshakeOk(qs + [p], if p.proto == "TCP" then NextHandshake(h, p) else h)
  {
    HoldsNext(qs, p, IsSyn, TimeOf, h.synTime != 0, h.synTime);
    AnswerTimeNext(qs, p, h.synAckTime);
    AnsweredNext(qs, p);
    assert h.synTime != 0 <==> !Never(qs, IsSyn);
  }

  /** Main handshake theorem: the time starts at the first timed forward SYN and is twice
      the distance to the first timed reverse SYN-ACK after it. It is reported exactly if
      some SYN-ACK came after that SYN; one without a capture time counts as an answer at
      time zero until a timed one replaces it. */
  lemma {:induction false} HandshakeTimes(qs: seq<Packet>)
    requires qs != []
    ensures HandshakeOk(qs, FoldFlow(TRACKER, qs).handshake)
    decreases |qs|
  {
    var n := |qs| - 1;
    var front, p := qs[..n], qs[n];
    assert qs == front + [p];
    if n > 0 {
      HandshakeTimes(front);
      HandshakeNext(front, FoldFlow(TRACKER, front).handshake, p);
    } else {
      HandshakeNext(front, NewRecord(KeyOf(p), p.ts).handshake, p);
    }
  }

  // ----- span and flags

  /** `t` is the largest capture time. */
  ghost predicate IsLastTime(qs: seq<Packet>, t: int) {
    && (forall i :: 0 <= i < |qs| ==> qs[i].ts <= t)
    && exists i :: 0 <= i < |qs| && qs[i].ts == t
  }

  ghost predicate HasFlag(qs: seq<Packet>, x: TcpFlag) {
    exists i :: 0 <= i < |qs| && qs[i].proto == "TCP" && Flag(qs[i], x)
  }

  ghost predicate SpanOk(qs: seq<Packet>, rec: FlowRecord) {
    && qs != [] && rec.start == qs[0].ts && IsLastTime(qs, rec.end)
    && (forall x :: x in rec.closing.flags <==> HasFlag(qs, x))
    && (rec.closing.fin <==> FIN in rec.closing.flags) && (rec.closing.rst <==> RST in rec.closing.flags)
  }

  lemma HasFlagNext(qs: seq<Packet>, p: Packet, x: TcpFlag)
    ensures HasFlag(qs + [p], x) <==> HasFlag(qs, x) || (p.proto == "TCP" && Flag(p, x))
  {
    var more := qs + [p];
    assert more[|qs|] == p && forall j :: 0 <= j < |qs| ==> more[j] == qs[j];
    if HasFlag(qs, x) {
      var i :| 0 <= i < |qs| && qs[i].proto == "TCP" && Flag(qs[i], x);
      assert more[i] == qs[i];
    }
    if HasFlag(more, x) {
      var i :| 0 <= i < |more| && more[i].proto == "TCP" && Flag(more[i], x);
      assert i < |qs| ==> qs[i] == more[i];
    }
  }

  lemma LastTimeNext(qs: seq<Packet>, p: Packet, t: int)
    requires IsLastTime(qs, t)
    ensures IsLastTime(qs + [p], if p.ts > t then p.ts else t)
  {
    var more := qs + [p];
    assert more[|qs|] == p && forall j :: 0 <= j < |qs| ==> more[j] == qs[j];
    var i :| 0 <= i < |qs| && qs[i].ts == t;
    assert more[i].ts == t;
  }

  /** A flow starts with its first packet and ends with its latest; its flags are those
      that some segment carried, and FIN and RST closes follow from them. */
  lemma {:induction false} FlowSpan(qs: seq<Packet>)
    requires qs != []
    ensures SpanOk(qs, FoldFlow(TRACKER, qs))
    decreases |qs|
  {
    var n := |qs| - 1;
    var front, p := qs[..n], qs[n];
    assert qs == front + [p];
    if n > 0 {
      FlowSpan(front);
      SpanNext(front, FoldFlow(TRACKER, front), p);
    } else {
      SpanFirst(p);
    }
  }

  lemma SpanFirst(p: Packet)
    ensures SpanOk([p], Touch(NewRecord(KeyOf(p), p.ts), p))
  {
    assert [p][0] == p;
    forall x
      ensures HasFlag([p], x) <==> p.proto == "TCP" && Flag(p, x)
    {
      HasFlagNext([], p, x);
      assert [] + [p] == [p];
    }
  }

  lemma SpanNext(qs: seq<Packet>, rec: FlowRecord, p: Packet)
    requires SpanOk(qs, rec)
    ensures SpanOk(qs + [p], Touch(rec, p))
  {
    LastTimeNext(qs, p, rec.end);
    forall x
      ensures HasFlag(qs + [p], x) <==> HasFlag(qs, x) || (p.proto == "TCP" && Flag(p, x))
    {
      HasFlagNext(qs, p, x);
    }
  }

  // ----- which second a byte is counted in

  /** The payload bytes captured from `lo` on and before `hi`. */
  function BytesBetween(qs: seq<Packet>, lo: int, hi: int): nat {
    if qs == [] then 0
    else
      BytesBetween(qs[..|qs| - 1], lo, hi) +
      (if lo <= qs[|qs| - 1].ts < hi then |qs[|qs| - 1].payload| else 0)
  }

  /** Where the times counted in bucket k begin. Truncation toward zero puts the second
      before the first payload into bucket 0 too. */
  function BucketFrom(start: int, k: nat): int {
    if k == 0 then start - SECOND + 1 else start + k * SECOND
  }

  lemma TruncatedSecond(d: int, k: nat)
    ensures WholeSeconds(d) == k <==> BucketFrom(0, k) <= d < (k + 1) * SECOND
  {
  }

  predicate HasPayload(p: Packet) { |p.payload| > 0 }

  function BucketAt(buckets: seq<nat>, k: nat): nat { if k < |buckets| then buckets[k] else 0 }

  ghost predicate TrendOk(qs: seq<Packet>, t: Trend, k: nat) {
    && Holds(qs, HasPayload, TimeOf, t.start != 0, t.start)
    && (t.start == 0 ==> t.buckets == [])
    && BucketAt(t.buckets, k) == BytesBetween(qs, BucketFrom(t.start, k), t.start + (k + 1) * SECOND)
  }

  lemma {:induction false} NoPayloadNoBytes(qs: seq<Packet>, lo: int, hi: int)
    requires Never(qs, HasPayload)
    ensures BytesBetween(qs, lo, hi) == 0
    decreases |qs|
  {
    if qs != [] {
      assert forall j :: 0 <= j < |qs| - 1 ==> qs[..|qs| - 1][j] == qs[j];
      NoPayloadNoBytes(qs[..|qs| - 1], lo, hi);
      assert !HasPayload(qs[|qs| - 1]);
    }
  }

  lemma AddBucketAt(buckets: seq<nat>, idx: nat, n: nat, k: nat)
    ensures BucketAt(AddBucket(buckets, idx, n), k) == BucketAt(buckets, k) + (if k == idx then n else 0)
  {
  }

  lemma BytesNext(qs: seq<Packet>, p: Packet, lo: int, hi: int)
    ensures BytesBetween(qs + [p], lo, hi) == BytesBetween(qs, lo, hi) + (if lo <= p.ts < hi then |p.payload| else 0)
  {
    assert (qs + [p])[..|qs|] == qs;
  }

  /** What a payload adds to bucket k. */
  lemma PayloadInBucket(t: Trend, p: Packet, k: nat)
    requires HasPayload(p) && k < MAX_BUCKETS
    ensures
      var u := NextTrend(t, p);
      && u.start == (if t.start == 0 then p.ts else t.start)
      && BucketAt(u.buckets, k) == BucketAt(t.buckets, k) +
         (if BucketFrom(u.start, k) <= p.ts < u.start + (k + 1) * SECOND then |p.payload| else 0)
  {
    var start := if t.start == 0 then p.ts else t.start;
    var idx := WholeSeconds(p.ts - start);
    TruncatedSecond(p.ts - start, k);
    if 0 <= idx < MAX_BUCKETS { AddBucketAt(t.buckets, idx, |p.payload|, k); }
  }

  lemma TrendNext(qs: seq<Packet>, t: Trend, p: Packet, k: nat)
    requires TrendOk(qs, t, k) && k < MAX_BUCKETS && (HasPayload(p) ==> p.ts != 0)
    ensures TrendOk(qs + [p], NextTrend(t, p), k)
  {
    var u := NextTrend(t, p);
    var lo, hi := BucketFrom(u.start, k), u.start + (k + 1) * SECOND;
    HoldsNext(qs, p, HasPayload, TimeOf, t.start != 0, t.start);
    BytesNext(qs, p, lo, hi);
    if HasPayload(p) {
      PayloadInBucket(t, p, k);
      if t.start == 0 { NoPayloadNoBytes(qs, lo, hi); }
    }
  }

  /** Main bucket theorem: if payload packets carry a capture time, bucket k > 0 of the
      first hour holds exactly the payload bytes of second k after the first payload, and
      bucket 0 those of less than a second before or after it. */
  lemma {:induction false} BucketsExact(qs: seq<Packet>, k: nat)
    requires qs != [] && k < 3600 && forall i :: 0 <= i < |qs| && HasPayload(qs[i]) ==> qs[i].ts != 0
    ensures TrendOk(qs, FoldFlow(TRACKER, qs).trend, k)
    decreases |qs|
  {
    var n := |qs| - 1;
    var front, p := qs[..n], qs[n];
    assert qs == front + [p];
    if n > 0 {
      BucketsExact(front, k);
      TrendNext(front, FoldFlow(TRACKER, front).trend, p, k);
    } else {
      TrendNext(front, NewRecord(KeyOf(p), p.ts).trend, p, k);
    }
  }

  lemma {:induction false} BytesSplit(qs: seq<Packet>, lo: int, mid: int, hi: int)
    requires lo <= mid <= hi
    ensures BytesBetween(qs, lo, hi) == BytesBetween(qs, lo, mid) + BytesBetween(qs, mid, hi)
    decreases |qs|
  {
    if qs != [] { BytesSplit(qs[..|qs| - 1], lo, mid, hi); }
  }

  /** So bucket 0 holds the bytes of the first second alone if and only if no payload was
      captured in the second before. */
  lemma FirstBucketExactly(qs: seq<Packet>)
    requires qs != [] && forall i :: 0 <= i < |qs| && HasPayload(qs[i]) ==> qs[i].ts != 0
    ensures FirstSecondAlone(qs, FoldFlow(TRACKER, qs).trend)
  {
    BucketsExact(qs, 0);
    FirstBucket(qs, FoldFlow(TRACKER, qs).trend);
  }

  predicate FirstSecondAlone(qs: seq<Packet>, t: Trend) {
    BucketAt(t.buckets, 0) == BytesBetween(qs, t.start, t.start + SECOND)
    <==> BytesBetween(qs, t.start - SECOND + 1, t.start) == 0
  }

  lemma FirstBucket(qs: seq<Packet>, t: Trend)
    requires TrendOk(qs, t, 0)
    ensures FirstSecondAlone(qs, t)
  {
    BytesSplit(qs, t.start - SECOND + 1, t.start, t.start + SECOND);
  }

  /** A payload half a second before the first one shares its bucket. */
  lemma EarlierPayloadInFirstBucket(p: Packet, q: Packet)
    requires |p.payload| == |q.payload| == 1 && p.ts == 10 * SECOND && q.ts == 10 * SECOND - SECOND / 2
    ensures FoldFlow(TRACKER, [p, q]).trend == Trend(10 * SECOND, [2])
  {
    assert [p, q][..1] == [p];
    var t := NextTrend(Trend(0, []), p);
    assert WholeSeconds(0) == 0 && WholeSeconds(q.ts - p.ts) == 0;
    assert t == Trend(10 * SECOND, [1]);
    assert NextTrend(t, q) == Trend(10 * SECOND, [2]);
  }
}
