/** The 5-tuple flow tracker: one record per bidirectional flow, updated packet by packet.
    Times are nanoseconds since Go's zero time, so a zero time is 0. */
module FlowTracker {
  import opened Bytes
  import opened KeyedFold

  /** The bits of a segment's flag field. */
  datatype TcpFlag = FIN | SYN | RST | PSH | ACK | URG

  const MAX_BUCKETS := 3600

  datatype Packet = Packet(
    ts: int, srcIP: string, dstIP: string, srcPort: nat, dstPort: nat, proto: string,
    payload: seq<byte>, tcpSeq: nat, tcpAck: nat, flags: set<TcpFlag>, ttl: nat, ipID: nat, reassembled: bool)

  datatype FlowKey = FlowKey(srcIP: string, dstIP: string, srcPort: nat, dstPort: nat, proto: string)

  // ----- keys

  /** Go's `<` on strings: lexicographic. */
  predicate Less(a: string, b: string) {
    b != [] && (a == [] || a[0] < b[0] || (a[0] == b[0] && Less(a[1..], b[1..])))
  }

  lemma LessTotal(a: string, b: string)
    ensures !(Less(a, b) && Less(b, a))
    ensures a == b ==> !Less(a, b)
    ensures a != b ==> Less(a, b) || Less(b, a)
  {
    if a != [] && b != [] {
      LessTotal(a[1..], b[1..]);
      if a[0] == b[0] && a[1..] == b[1..] {
        assert a == [a[0]] + a[1..] && b == [b[0]] + b[1..];
      }
    }
  }

  predicate IsIcmp(proto: string) { proto == "ICMP" || proto == "ICMPv6" }

  /** makeKey: the normalised 5-tuple, and whether the packet goes against it. */
  function MakeKey(p: Packet): (FlowKey, bool) {
    if IsIcmp(p.proto) then
      if Less(p.srcIP, p.dstIP) then (FlowKey(p.srcIP, p.dstIP, 0, 0, p.proto), false)
      else (FlowKey(p.dstIP, p.srcIP, 0, 0, p.proto), true)
    else if Less(p.srcIP, p.dstIP) || (p.srcIP == p.dstIP && p.srcPort <= p.dstPort) then
      (FlowKey(p.srcIP, p.dstIP, p.srcPort, p.dstPort, p.proto), false)
    else (FlowKey(p.dstIP, p.srcIP, p.dstPort, p.srcPort, p.proto), true)
  }

  function KeyOf(p: Packet): FlowKey { MakeKey(p).0 }

  predicate Reversed(p: Packet) { MakeKey(p).1 }

  // ----- records

  /** A sent data segment awaiting its acknowledgement. */
  datatype Pending = Pending(ackExpected: nat, sentAt: int)

  datatype Sample = Sample(observedAt: int, nanos: int)

  /** What is kept for each direction of a flow. */
  datatype Side = Side(
    packets: nat, bytes: nat, hiInit: bool, hiSeq: nat, retrans: nat,
    pending: seq<Pending>, ttlSet: bool, ttl: nat)

  /** One-second byte buckets, counted from the first payload. */
  datatype Trend = Trend(start: int, buckets: seq<nat>)

  /** How a TCP flow closed, and the first RST for its authenticity check. */
  datatype Closing = Closing(
    flags: set<TcpFlag>, fin: bool, rst: bool, rstSeen: bool, rstFromReversed: bool, rstTTL: nat, rstIPID: nat)

  datatype Handshake = Handshake(synTime: int, synAckTime: int, nanos: int, hasRTT: bool)

  datatype FlowRecord = FlowRecord(
    key: FlowKey, start: int, end: int, fwd: Side, rev: Side, trend: Trend,
    closing: Closing, handshake: Handshake, samples: seq<Sample>)

  const FRESH_SIDE := Side(0, 0, false, 0, 0, [], false, 0)

  function NewRecord(key: FlowKey, ts: int): FlowRecord {
    FlowRecord(key, ts, ts, FRESH_SIDE, FRESH_SIDE, Trend(0, []),
               Closing({}, false, false, false, false, 0, 0), Handshake(0, 0, 0, false), [])
  }

  function SideOf(rec: FlowRecord, reversed: bool): Side { if reversed then rec.rev else rec.fwd }

  // ----- TCP sequence arithmetic (section 3.4 of RFC 9293)

  /** `int32(b-a) > 0` on uint32 values. */
  predicate SeqBefore(a: nat, b: nat) { 0 < (b - a) % TWO32 < TWO31 }

  function PayLen(p: Packet): nat { |p.payload| % TWO32 }

  function NextSeq(p: Packet): nat { (p.tcpSeq + PayLen(p)) % TWO32 }

  predicate Flag(p: Packet, flag: TcpFlag) { flag in p.flags }

  // ----- what one packet does to each part of its flow's record

  /** Seconds of a duration, truncated toward zero as Go's int conversion does. */
  function WholeSeconds(d: int): int { if d >= 0 then d / SECOND else -((-d) / SECOND) }

  function Zeros(n: nat): seq<nat> { seq(n, _ => 0) }

  /** Adds to a bucket, first extending the slice with zeroes up to it. */
  function AddBucket(buckets: seq<nat>, idx: nat, n: nat): seq<nat> {
    var padded := if |buckets| <= idx then buckets + Zeros(idx + 1 - |buckets|) else buckets;
    padded[idx := padded[idx] + n]
  }

  function NextTrend(t: Trend, p: Packet): Trend {
    if |p.payload| == 0 then t
    else
      var start := if t.start == 0 then p.ts else t.start;
      var idx := WholeSeconds(p.ts - start);
      Trend(start, if 0 <= idx < MAX_BUCKETS then AddBucket(t.buckets, idx, |p.payload|) else t.buckets)
  }

  function NextClosing(c: Closing, p: Packet): Closing {
    var d := c.(flags := c.flags + p.flags, fin := c.fin || Flag(p, FIN), rst := c.rst || Flag(p, RST));
    if Flag(p, RST) && !c.rstSeen then
      d.(rstSeen := true, rstFromReversed := Reversed(p), rstTTL := p.ttl, rstIPID := p.ipID)
    else d
  }

  function NextHandshake(h: Handshake, p: Packet): Handshake {
    if Flag(p, SYN) && !Flag(p, ACK) && !Reversed(p) && h.synTime == 0 then h.(synTime := p.ts)
    else if Flag(p, SYN) && Flag(p, ACK) && Reversed(p) && h.synTime != 0 && h.synAckTime == 0 then
      h.(synAckTime := p.ts, nanos := 2 * (p.ts - h.synTime), hasRTT := true)
    else h
  }

  function Counted(s: Side, p: Packet): Side {
    s.(packets := s.packets + 1, bytes := s.bytes + |p.payload|)
  }

  /** The baseline TTL is that of the first packet that is not an RST. */
  function Baseline(s: Side, p: Packet): Side {
    if !Flag(p, RST) && p.ttl > 0 && !s.ttlSet then s.(ttl := p.ttl, ttlSet := true) else s
  }

  function Retransmission(s: Side, p: Packet): Side {
    if PayLen(p) == 0 then s
    else if !s.hiInit then s.(hiSeq := NextSeq(p), hiInit := true)
    else if SeqBefore(p.tcpSeq, s.hiSeq) then s.(retrans := s.retrans + 1)
    else s.(hiSeq := NextSeq(p))
  }

  predicate Pushes(p: Packet) { Flag(p, PSH) && PayLen(p) > 0 }

  predicate Acknowledges(p: Packet) { Flag(p, ACK) && p.tcpAck != 0 }

  function SegmentOf(p: Packet): Pending { Pending(NextSeq(p), p.ts) }

  function Push(s: Side, p: Packet): Side {
    if Pushes(p) then s.(pending := s.pending + [SegmentOf(p)]) else s
  }

  predicate Covered(s: Pending, ack: nat) { !SeqBefore(ack, s.ackExpected) }

  /** The segments an acknowledgement leaves waiting. */
  function Kept(ps: seq<Pending>, ack: nat): seq<Pending> {
    if ps == [] then []
    else Kept(ps[..|ps| - 1], ack) + (if Covered(ps[|ps| - 1], ack) then [] else [ps[|ps| - 1]])
  }

  /** The round-trip samples an acknowledgement yields. */
  function Sampled(ps: seq<Pending>, ack: nat, now: int): seq<Sample> {
    if ps == [] then []
    else
      var s := ps[|ps| - 1];
      Sampled(ps[..|ps| - 1], ack, now) +
      (if Covered(s, ack) && now > s.sentAt then [Sample(now, now - s.sentAt)] else [])
  }

  /** The direction the packet travels in ... */
  function OwnSide(s: Side, p: Packet): Side {
    if p.proto == "TCP" then Push(Retransmission(Baseline(Counted(s, p), p), p), p) else Counted(s, p)
  }

  /** ... and the direction it acknowledges. */
  function OtherSide(s: Side, p: Packet): Side {
    if p.proto == "TCP" && Acknowledges(p) then s.(pending := Kept(s.pending, p.tcpAck)) else s
  }

  function NextSide(rec: FlowRecord, p: Packet, reversed: bool): Side {
    if Reversed(p) == reversed then OwnSide(SideOf(rec, reversed), p) else OtherSide(SideOf(rec, reversed), p)
  }

  function NextSamples(rec: FlowRecord, p: Packet): seq<Sample> {
    if p.proto == "TCP" && Acknowledges(p) then
      rec.samples + Sampled(SideOf(rec, !Reversed(p)).pending, p.tcpAck, p.ts)
    else rec.samples
  }

  /** The whole effect of a packet on its flow's record. */
  function Touch(rec: FlowRecord, p: Packet): FlowRecord {
    FlowRecord(rec.key, rec.start, if p.ts > rec.end then p.ts else rec.end,
               NextSide(rec, p, false), NextSide(rec, p, true), NextTrend(rec.trend, p),
               if p.proto == "TCP" then NextClosing(rec.closing, p) else rec.closing,
               if p.proto == "TCP" then NextHandshake(rec.handshake, p) else rec.handshake,
               NextSamples(rec, p))
  }

  type Flows = map<FlowKey, FlowRecord>

  /** Packets without addresses and synthetic reassembled packets are not tracked. */
  predicate Tracked(p: Packet) { p.srcIP != "" && p.dstIP != "" && !p.reassembled }

  /** Tracker.HandlePacket as a keyed decoder. */
  const TRACKER: Decoder<Packet, FlowKey, FlowRecord> :=
    Decoder(Tracked, KeyOf, (p: Packet) => NewRecord(KeyOf(p), p.ts), Touch)

  // ----- the tracker object

  /** drainPending: the filter overwrites the front of the array it is reading. */
  method DrainPending(pending: array<Pending>, ack: nat, now: int, samples: seq<Sample>)
    returns (remaining: nat, all: seq<Sample>)
    modifies pending
    ensures remaining <= pending.Length
    ensures pending[..remaining] == Kept(old(pending[..]), ack)
    ensures all == samples + Sampled(old(pending[..]), ack, now)
  {
    remaining, all := 0, samples;
    ghost var was := pending[..];
    for i := 0 to pending.Length
      invariant remaining <= i
      invariant forall j :: i <= j < pending.Length ==> pending[j] == was[j]
      invariant pending[..remaining] == Kept(was[..i], ack)
      invariant all == samples + Sampled(was[..i], ack, now)
    {
      var s := pending[i];
      assert was[..i + 1][..i] == was[..i];
      if !SeqBefore(ack, s.ackExpected) {
        if now > s.sentAt {
          all := all + [Sample(now, now - s.sentAt)];
        }
      } else {
        pending[remaining] := s;
        assert pending[..remaining + 1] == pending[..remaining] + [s];
        remaining := remaining + 1;
      }
    }
    assert was[..pending.Length] == was;
  }

  /** The bucket loop of HandlePacket. */
  method AddToBucket(buckets: seq<nat>, idx: nat, n: nat) returns (r: seq<nat>)
    ensures r == AddBucket(buckets, idx, n)
  {
    r := buckets;
    while |r| <= idx
      invariant |buckets| <= |r| <= (if |buckets| <= idx then idx + 1 else |buckets|)
      invariant r == buckets + Zeros(|r| - |buckets|)
      decreases idx + 1 - |r|
    {
      r := r + [0];
    }
    r := r[idx := r[idx] + n];
  }

  /** The throughput-bucket block of HandlePacket. */
  method AddToTrend(t: Trend, p: Packet) returns (r: Trend)
    ensures r == NextTrend(t, p)
  {
    r := t;
    if |p.payload| > 0 {
      if r.start == 0 {
        r := r.(start := p.ts);
      }
      var idx := WholeSeconds(p.ts - r.start);
      if 0 <= idx < MAX_BUCKETS {
        var b := AddToBucket(r.buckets, idx, |p.payload|);
        r := r.(buckets := b);
      }
    }
  }

  /** The flag and RST blocks of HandlePacket. */
  method TrackClosing(c: Closing, own: Side, p: Packet) returns (d: Closing, side: Side)
    ensures d == NextClosing(c, p) && side == Baseline(own, p)
  {
    d, side := c.(flags := c.flags + p.flags), own;
    if Flag(p, FIN) {
      d := d.(fin := true);
    }
    if Flag(p, RST) {
      d := d.(rst := true);
      if !d.rstSeen {
        d := d.(rstSeen := true, rstFromReversed := Reversed(p), rstTTL := p.ttl, rstIPID := p.ipID);
      }
    } else if p.ttl > 0 {
      if !side.ttlSet {
        side := side.(ttl := p.ttl, ttlSet := true);
      }
    }
  }

  /** The handshake block of HandlePacket. */
  method TrackHandshake(h: Handshake, p: Packet) returns (r: Handshake)
    ensures r == NextHandshake(h, p)
  {
    r := h;
    if Flag(p, SYN) && !Flag(p, ACK) && !Reversed(p) && r.synTime == 0 {
      r := r.(synTime := p.ts);
    }
    if Flag(p, SYN) && Flag(p, ACK) && Reversed(p) && r.synTime != 0 && r.synAckTime == 0 {
      r := r.(synAckTime := p.ts, nanos := 2 * (p.ts - r.synTime), hasRTT := true);
    }
  }

  /** The retransmission and push blocks of HandlePacket. */
  method TrackData(own: Side, p: Packet) returns (s: Side)
    ensures s == Push(Retransmission(own, p), p)
  {
    s := own;
    if PayLen(p) > 0 {
      if !s.hiInit {
        s := s.(hiSeq := NextSeq(p), hiInit := true);
      } else if SeqBefore(p.tcpSeq, s.hiSeq) {
        s := s.(retrans := s.retrans + 1);
      } else {
        s := s.(hiSeq := NextSeq(p));
      }
    }
    if Flag(p, PSH) && PayLen(p) > 0 {
      s := s.(pending := s.pending + [Pending(NextSeq(p), p.ts)]);
    }
  }

  /** The acknowledgement block of HandlePacket, on the opposite direction. */
  method TrackAck(other: Side, samples: seq<Sample>, p: Packet) returns (s: Side, all: seq<Sample>)
    ensures s == (if Acknowledges(p) then other.(pending := Kept(other.pending, p.tcpAck)) else other)
    ensures all == (if Acknowledges(p) then samples + Sampled(other.pending, p.tcpAck, p.ts) else samples)
  {
    s, all := other, samples;
    if Flag(p, ACK) && p.tcpAck != 0 {
      var a := new Pending[|s.pending|](i requires 0 <= i < |s.pending| => s.pending[i]);
      assert a[..] == s.pending;
      var n;
      n, all := DrainPending(a, p.tcpAck, p.ts, samples);
      s := s.(pending := a[..n]);
    }
  }

  /** The part of HandlePacket that only TCP packets reach. */
  method TrackTcp(own: Side, other: Side, closing: Closing, handshake: Handshake, samples: seq<Sample>, p: Packet)
    returns (own': Side, other': Side, c: Closing, h: Handshake, all: seq<Sample>)
    ensures own' == Push(Retransmission(Baseline(own, p), p), p)
    ensures other' == (if Acknowledges(p) then other.(pending := Kept(other.pending, p.tcpAck)) else other)
    ensures c == NextClosing(closing, p) && h == NextHandshake(handshake, p)
    ensures all == (if Acknowledges(p) then samples + Sampled(other.pending, p.tcpAck, p.ts) else samples)
  {
    c, own' := TrackClosing(closing, own, p);
    h := TrackHandshake(handshake, p);
    own' := TrackData(own', p);
    other', all := TrackAck(other, samples, p);
  }

  /** What HandlePacket does to the packet's record. */
  method UpdateRecord(rec: FlowRecord, p: Packet) returns (r: FlowRecord)
    ensures r == Touch(rec, p)
  {
    var reversed := Reversed(p);
    var own, other := SideOf(rec, reversed), SideOf(rec, !reversed);
    var end := if p.ts > rec.end then p.ts else rec.end;
    own := own.(packets := own.packets + 1, bytes := own.bytes + |p.payload|);
    var trend := AddToTrend(rec.trend, p);
    var closing, handshake, samples := rec.closing, rec.handshake, rec.samples;
    if p.proto == "TCP" {
      own, other, closing, handshake, samples := TrackTcp(own, other, closing, handshake, samples, p);
    }
    assert own == OwnSide(SideOf(rec, reversed), p) && other == OtherSide(SideOf(rec, !reversed), p);
    var fwd, rev := own, other;
    if reversed {
      fwd, rev := other, own;
    }
    r := FlowRecord(rec.key, rec.start, end, fwd, rev, trend, closing, handshake, samples);
  }

  class Tracker {
    var flows: Flows

    constructor ()
      ensures flows == map[]
    {
      flows := map[];
    }

    method HandlePacket(p: Packet)
      modifies this
      ensures flows == Handle(TRACKER, old(flows), p)
    {
      if p.srcIP == "" || p.dstIP == "" || p.reassembled {
        return;
      }
      var key := KeyOf(p);
      var rec := if key in flows then flows[key] else NewRecord(key, p.ts);
      rec := UpdateRecord(rec, p);
      flows := flows[key := rec];
    }

    /** Hands out every record once and starts over. */
    method Flush() returns (out: seq<FlowRecord>)
      modifies this
      ensures flows == map[]
      ensures |out| == |old(flows)|
      ensures forall k :: k in old(flows) ==> old(flows)[k] in out
      ensures forall r :: r in out ==> exists k :: k in old(flows) && old(flows)[k] == r
    {
      out := [];
      var left := flows.Keys;
      while left != {}
        invariant left <= old(flows).Keys && flows == old(flows)
        invariant |out| + |left| == |old(flows)|
        invariant forall k :: k in old(flows) && k !in left ==> old(flows)[k] in out
        invariant forall r :: r in out ==> exists k :: k in old(flows) && old(flows)[k] == r
        decreases |left|
      {
        var k :| k in left;
        out := out + [flows[k]];
        left := left - {k};
      }
      flows := map[];
    }
  }

  // ----- the throughput trend of toFlow

  /** `bytes` over seconds `[t, t + width)`. */
  datatype TrendPoint = TrendPoint(t: nat, width: nat, bytes: nat)

  function Sum(s: seq<nat>): nat {
    if s == [] then 0 else Sum(s[..|s| - 1]) + s[|s| - 1]
  }

  function TrendBytes(ps: seq<TrendPoint>): nat {
    if ps == [] then 0 else TrendBytes(ps[..|ps| - 1]) + ps[|ps| - 1].bytes
  }

  lemma {:induction false} SumAppend(a: seq<nat>, b: seq<nat>)
    ensures Sum(a + b) == Sum(a) + Sum(b)
    decreases |b|
  {
    if b == [] {
      assert a + b == a;
    } else {
      SumAppend(a, b[..|b| - 1]);
      assert (a + b)[..|a + b| - 1] == a + b[..|b| - 1];
    }
  }

  /** Consecutive windows from 0 on, each with the exact sum of its buckets. */
  predicate Tiling(points: seq<TrendPoint>, buckets: seq<nat>) {
    points != [] ==>
      var front, p := points[..|points| - 1], points[|points| - 1];
      && Tiling(front, buckets)
      && p.t == Reach(front) && 0 < p.width && p.t + p.width <= |buckets|
      && p.bytes == Sum(buckets[p.t..p.t + p.width])
  }

  /** The second up to which the windows reach. */
  function Reach(points: seq<TrendPoint>): nat {
    if points == [] then 0 else points[|points| - 1].t + points[|points| - 1].width
  }

  lemma TilingAppend(points: seq<TrendPoint>, buckets: seq<nat>, end: nat)
    requires Tiling(points, buckets) && Reach(points) < end <= |buckets|
    requires TrendBytes(points) == Sum(buckets[..Reach(points)])
    ensures
      var i := Reach(points);
      var more := points + [TrendPoint(i, end - i, Sum(buckets[i..end]))];
      Tiling(more, buckets) && TrendBytes(more) == Sum(buckets[..end])
  {
    var i := Reach(points);
    var more := points + [TrendPoint(i, end - i, Sum(buckets[i..end]))];
    SumAppend(buckets[..i], buckets[i..end]);
    assert buckets[..i] + buckets[i..end] == buckets[..end];
    assert more[..|points|] == points;
  }

  method WindowSum(buckets: seq<nat>, i: nat, end: nat) returns (sum: nat)
    requires i <= end <= |buckets|
    ensures sum == Sum(buckets[i..end])
  {
    sum := 0;
    for j := i to end
      invariant sum == Sum(buckets[i..j])
    {
      assert buckets[i..j + 1][..j - i] == buckets[i..j];
      sum := sum + buckets[j];
    }
  }

  /** One window of the loop, from where the last one ended. */
  method AddWindow(points: seq<TrendPoint>, buckets: seq<nat>, end: nat) returns (more: seq<TrendPoint>)
    requires Tiling(points, buckets) && Reach(points) < end <= |buckets|
    requires TrendBytes(points) == Sum(buckets[..Reach(points)])
    ensures more == points + [TrendPoint(Reach(points), end - Reach(points), Sum(buckets[Reach(points)..end]))]
    ensures Reach(more) == end
    ensures Tiling(more, buckets) && TrendBytes(more) == Sum(buckets[..end])
  {
    var i := Reach(points);
    var sum := WindowSum(buckets, i, end);
    TilingAppend(points, buckets, end);
    more := points + [TrendPoint(i, end - i, sum)];
  }

  predicate AllWide(points: seq<TrendPoint>, w: nat) { forall i :: 0 <= i < |points| ==> points[i].width == w }

  /** All windows have width w, but the last may be narrower. */
  predicate Even(points: seq<TrendPoint>, w: nat) {
    points != [] ==> AllWide(points[..|points| - 1], w) && points[|points| - 1].width <= w
  }

  lemma {:induction false} WideReach(points: seq<TrendPoint>, buckets: seq<nat>, w: nat)
    requires Tiling(points, buckets) && AllWide(points, w)
    ensures Reach(points) == |points| * w
    decreases |points|
  {
    if points != [] {
      var front := points[..|points| - 1];
      WideReach(front, buckets, w);
      assert |points| * w == |front| * w + w;
    }
  }

  lemma AtMostSixty(points: seq<TrendPoint>, buckets: seq<nat>, w: nat)
    requires Tiling(points, buckets) && Even(points, w) && Reach(points) <= 60 * w
    ensures |points| <= 60
  {
    if points != [] {
      var front := points[..|points| - 1];
      WideReach(front, buckets, w);
      assert |front| >= 60 ==> |front| * w >= 60 * w;
    }
  }

  /** Downsampling: at most 60 windows that tile the buckets and together hold every byte.
      They are as narrow as 60 windows of one width can be. */
  method ThroughputTrend(buckets: seq<nat>) returns (points: seq<TrendPoint>)
    ensures |points| <= 60
    ensures Tiling(points, buckets) && Reach(points) == |buckets|
    ensures TrendBytes(points) == Sum(buckets)
    ensures buckets != [] ==>
              points != [] && 60 * (points[0].width - 1) < |buckets| <= 60 * points[0].width && Even(points, points[0].width)
  {
    points := [];
    var n := |buckets|;
    if n == 0 {
      return;
    }
    var step := 1;
    if n > 60 {
      step := (n + 59) / 60;
    }
    points := Downsample(buckets, step);
    AtMostSixty(points, buckets, step);
  }

  /** The loop, with windows of `step` buckets. */
  method Downsample(buckets: seq<nat>, step: nat) returns (points: seq<TrendPoint>)
    requires 0 < step <= |buckets|
    ensures Tiling(points, buckets) && Reach(points) == |buckets| && TrendBytes(points) == Sum(buckets)
    ensures points != [] && points[0].width == step && Even(points, step)
  {
    points := [];
    var n := |buckets|;
    var i := 0;
    while i < n
      invariant Reach(points) == (if i < n then i else n)
      invariant Tiling(points, buckets) && TrendBytes(points) == Sum(buckets[..Reach(points)])
      invariant Even(points, step) && (i <= n ==> AllWide(points, step))
      invariant i > 0 ==> points != [] && points[0].width == step
      decreases n - i
    {
      var end := if i + step < n then i + step else n;
      ghost var front := points;
      points := AddWindow(points, buckets, end);
      assert points[..|points| - 1] == front;
      i := i + step;
    }
    assert buckets[..n] == buckets;
  }

  // ----- RST authenticity

  const RST_TTL_DELTA := 5

  datatype Verdict = Absent | Unknown | Genuine | Suspicious

  /** toFlow and addRSTAuthenticityMetrics: compares the first RST with the baseline of its
      own direction. Without a TTL on the RST no verdict is given. */
  function RstVerdict(rec: FlowRecord): Verdict {
    var c := rec.closing;
    var side := SideOf(rec, c.rstFromReversed);
    if !c.rstSeen || c.rstTTL == 0 then Absent
    else if !side.ttlSet then Unknown
    else
      var delta := if side.ttl < c.rstTTL then c.rstTTL - side.ttl else side.ttl - c.rstTTL;
      if delta >= RST_TTL_DELTA then Suspicious else Genuine
  }

  /** The loss rate of toFlow in percent, before rounding. */
  function LossPercent(rec: FlowRecord): real {
    var packets, retrans := rec.fwd.packets + rec.rev.packets, rec.fwd.retrans + rec.rev.retrans;
    if packets > 0 then retrans as real / packets as real * 100.0 else 0.0
  }

  /** round2 for non-negative values: to two decimals, halves up. */
  function Round2(x: real): real { (x * 100.0 + 0.5).Floor as real / 100.0 }

  /** The `packet_loss_pct` that toFlow reports. */
  function ReportedLoss(rec: FlowRecord): real { Round2(LossPercent(rec)) }
}
