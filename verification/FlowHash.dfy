/** Flow-affinity routing: FlowHash and Route, and what they mean for the decode pool
    when its decoder is the flow tracker. `parse` stands for net.ParseIP. */
module FlowHash {
  import opened Bytes
  import opened KeyedFold
  import opened FlowTracker
  import TrackerProofs
  import Pool

  const OFFSET_BASIS := 2166136261
  const FNV_PRIME := 16777619

  /** Exclusive or of the low `bits` bits. */
  function Xor(a: nat, b: nat, bits: nat): nat {
    if bits == 0 then 0 else 2 * Xor(a / 2, b / 2, bits - 1) + (a % 2 + b % 2) % 2
  }

  /** One round of FNV-32a: exclusive or with a byte, then multiply, in uint32. */
  function FnvRound(h: nat, b: byte): nat {
    (h - h % 256 + Xor(h % 256, b, 8)) * FNV_PRIME % TWO32
  }

  function HashWith(round: (nat, byte) -> nat, h: nat, data: seq<byte>): nat {
    if data == [] then h else round(HashWith(round, h, data[..|data| - 1]), data[|data| - 1])
  }

  function Fnv(data: seq<byte>): nat { HashWith(FnvRound, OFFSET_BASIS, data) }

  /** The bytes FlowHash writes into the hasher, endpoints sorted. */
  function HashedBytes(parse: string -> seq<byte>, p: Packet): seq<byte> {
    if Less(p.dstIP, p.srcIP) || (p.srcIP == p.dstIP && p.srcPort > p.dstPort) then
      parse(p.dstIP) + parse(p.srcIP) + ToBigEndian(p.dstPort, 2) + ToBigEndian(p.srcPort, 2)
    else
      parse(p.srcIP) + parse(p.dstIP) + ToBigEndian(p.srcPort, 2) + ToBigEndian(p.dstPort, 2)
  }

  function FlowHash(parse: string -> seq<byte>, p: Packet): nat { Fnv(HashedBytes(parse, p)) }

  function Route(parse: string -> seq<byte>, p: Packet, workers: nat): (r: nat)
    requires workers > 0
    ensures r < workers
  {
    FlowHash(parse, p) % workers
  }

  // ----- TCP, UDP and SCTP

  /** The hash depends on the flow key alone, so both directions of a flow agree. */
  lemma HashFollowsKey(parse: string -> seq<byte>, p: Packet)
    requires !IsIcmp(p.proto)
    ensures
      var k := KeyOf(p);
      HashedBytes(parse, p) == parse(k.srcIP) + parse(k.dstIP) + ToBigEndian(k.srcPort, 2) + ToBigEndian(k.dstPort, 2)
  {
    LessTotal(p.srcIP, p.dstIP);
  }

  ghost function TrackerPool(parse: string -> seq<byte>, workers: nat, bound: nat): Pool.Config<Packet, FlowKey, FlowRecord>
    requires workers > 0
  {
    Pool.Config(TRACKER, (p: Packet) => Route(parse, p, workers), workers, bound)
  }

  /** Without ICMP every capture has flow affinity. */
  lemma NonIcmpAffinity(parse: string -> seq<byte>, workers: nat, bound: nat, capture: seq<Packet>)
    requires workers > 0
    requires forall i :: 0 <= i < |capture| && Tracked(capture[i]) ==> !IsIcmp(capture[i].proto)
    ensures Pool.Affinity(TrackerPool(parse, workers, bound), capture)
  {
    forall i, j | 0 <= i < |capture| && 0 <= j < |capture| && Tracked(capture[i]) && Tracked(capture[j])
      && KeyOf(capture[i]) == KeyOf(capture[j])
      ensures Route(parse, capture[i], workers) == Route(parse, capture[j], workers)
    {
      HashFollowsKey(parse, capture[i]);
      HashFollowsKey(parse, capture[j]);
    }
  }

  /** Main theorem: over any capture of TCP, UDP and SCTP packets, for every worker count,
      queue bound, address parser and schedule, the finished pool holds exactly the flows
      of one sequential tracker, each in one worker, and the collector holds every packet
      once with each flow's packets in capture order. */
  lemma PoolTracksSequentially(
    parse: string -> seq<byte>, workers: nat, bound: nat, capture: seq<Packet>, es: seq<Pool.Event<Packet>>, k: FlowKey)
    requires workers > 0 && bound > 0
    requires forall i :: 0 <= i < |capture| && Tracked(capture[i]) ==> !IsIcmp(capture[i].proto)
    requires Pool.Finished(Pool.Run(TrackerPool(parse, workers, bound), capture, es))
    ensures
      var s := Pool.Run(TrackerPool(parse, workers, bound), capture, es);
      && Pool.Disjoint(s.maps)
      && Pool.Union(s.maps) == Track(TRACKER, capture)
      && multiset(s.collected) == multiset(capture)
      && PacketsOf(TRACKER, s.collected, k) == PacketsOf(TRACKER, capture, k)
  {
    var c := TrackerPool(parse, workers, bound);
    NonIcmpAffinity(parse, workers, bound, capture);
    Pool.PoolIsSequential(c, capture, es);
    Pool.CollectorComplete(c, capture, es, k);
  }

  /** For every capture, ICMP or not: any schedule yields the flows of one sequential
      tracker if and only if no flow has packets with different routes. */
  lemma TracksSequentiallyExactly(
    parse: string -> seq<byte>, workers: nat, bound: nat, capture: seq<Packet>, es: seq<Pool.Event<Packet>>)
    requires workers > 0 && bound > 0
    requires Pool.Finished(Pool.Run(TrackerPool(parse, workers, bound), capture, es))
    ensures Pool.Union(Pool.Run(TrackerPool(parse, workers, bound), capture, es).maps) == Track(TRACKER, capture)
            <==> Pool.Affinity(TrackerPool(parse, workers, bound), capture)
  {
    forall qs: seq<Packet> | qs != []
      ensures TrackerProofs.RecordPackets(FoldFlow(TRACKER, qs)) == |qs|
    {
      TrackerProofs.RecordCounts(qs);
    }
    Pool.SequentialExactly(TrackerPool(parse, workers, bound), capture, es, TrackerProofs.RecordPackets);
  }

  // ----- ICMP

  function ByteSum(data: seq<byte>): nat {
    if data == [] then 0 else ByteSum(data[..|data| - 1]) + data[|data| - 1]
  }

  lemma XorParity(a: nat, b: nat, bits: nat)
    requires bits > 0
    ensures Xor(a, b, bits) % 2 == (a + b) % 2
  {
    var x := Xor(a / 2, b / 2, bits - 1);
    EvenPlus(x, (a % 2 + b % 2) % 2);
  }

  lemma FnvRoundParity(h: nat, b: byte)
    ensures FnvRound(h, b) % 2 == (h + b) % 2
  {
    XorParity(h % 256, b, 8);
    MixParity(h, b, Xor(h % 256, b, 8));
    OddMultipleParity(h - h % 256 + Xor(h % 256, b, 8));
  }

  lemma MixParity(h: nat, b: nat, x: nat)
    requires x % 2 == (h % 256 + b) % 2
    ensures (h - h % 256 + x) % 2 == (h + b) % 2
  {
    var q, r := h / 256, h % 256;
    EvenPlus(128 * q, x);
    EvenPlus(128 * q, r + b);
  }

  lemma EvenPlus(e: nat, x: nat)
    ensures (2 * e + x) % 2 == x % 2
  {
  }

  lemma OddMultipleParity(x: nat)
    ensures x * FNV_PRIME % TWO32 % 2 == x % 2
  {
    var y := x * FNV_PRIME;
    EvenPlus(8388809 * x, x);
    EvenPlus(2147483648 * (y / TWO32), y % TWO32);
  }

  lemma {:induction false} HashParity(round: (nat, byte) -> nat, h: nat, data: seq<byte>)
    requires forall x: nat, b: byte :: round(x, b) % 2 == (x + b) % 2
    ensures HashWith(round, h, data) % 2 == (h + ByteSum(data)) % 2
    decreases |data|
  {
    if data != [] {
      var front, b := data[..|data| - 1], data[|data| - 1];
      HashParity(round, h, front);
      assert round(HashWith(round, h, front), b) % 2 == (HashWith(round, h, front) + b) % 2;
    }
  }

  /** FNV's prime and basis are odd: the lowest bit of the hash is the parity of the
      bytes, complemented. */
  lemma FnvParity(data: seq<byte>)
    ensures Fnv(data) % 2 == (1 + ByteSum(data)) % 2
  {
    AllRoundsParity(FnvRound);
    HashParity(FnvRound, OFFSET_BASIS, data);
    BasisParity(ByteSum(data));
  }

  lemma AllRoundsParity(round: (nat, byte) -> nat)
    requires round == FnvRound
    ensures forall h: nat, b: byte :: round(h, b) % 2 == (h + b) % 2
  {
    forall h: nat, b: byte
      ensures round(h, b) % 2 == (h + b) % 2
    {
      FnvRoundParity(h, b);
    }
  }

  lemma BasisParity(n: nat)
    ensures (OFFSET_BASIS + n) % 2 == (1 + n) % 2
  {
    EvenPlus(1083068130, 1 + n);
  }

  lemma {:induction false} ByteSumAppend(a: seq<byte>, b: seq<byte>)
    ensures ByteSum(a + b) == ByteSum(a) + ByteSum(b)
    decreases |b|
  {
    if b == [] {
      assert a + b == a;
    } else {
      ByteSumAppend(a, b[..|b| - 1]);
      assert (a + b)[..|a + b| - 1] == a + b[..|b| - 1];
    }
  }

  lemma SmallPortSum(n: nat)
    requires n < 256
    ensures ByteSum(ToBigEndian(n, 2)) == n
  {
    assert n / 256 == 0;
    assert ToBigEndian(0, 1) == ToBigEndian(0, 0) + [0];
    assert ToBigEndian(n, 2) == ToBigEndian(0, 1) + [n];
    assert ToBigEndian(n, 2)[..1] == ToBigEndian(0, 1);
    assert ToBigEndian(0, 1)[..0] == [];
  }

  lemma HashedSum(a: seq<byte>, b: seq<byte>, x: nat, y: nat)
    requires x < 256 && y < 256
    ensures ByteSum(a + b + ToBigEndian(x, 2) + ToBigEndian(y, 2)) == ByteSum(a) + ByteSum(b) + x + y
  {
    ByteSumAppend(a, b);
    ByteSumAppend(a + b, ToBigEndian(x, 2));
    ByteSumAppend(a + b + ToBigEndian(x, 2), ToBigEndian(y, 2));
    SmallPortSum(x);
    SmallPortSum(y);
  }

  /** An ICMP packet as the reader builds it: type and code stand in for the ports. */
  function Icmp(src: string, dst: string, icmpType: byte, code: byte, ts: int): Packet {
    Packet(ts, src, dst, icmpType, code, "ICMP", [], 0, 0, {}, 64, 0, false)
  }

  /** For ICMP affinity is not guaranteed. With two workers, an echo request (8, 0) and a
      destination-unreachable (3, 0) between the same hosts belong to one flow and go to
      different workers, whatever the addresses and the parser. */
  lemma IcmpFlowSplits(parse: string -> seq<byte>, src: string, dst: string, bound: nat, t1: int, t2: int)
    requires src != "" && dst != "" && src != dst
    ensures
      var p, q := Icmp(src, dst, 8, 0, t1), Icmp(src, dst, 3, 0, t2);
      && Tracked(p) && Tracked(q) && KeyOf(p) == KeyOf(q)
      && Route(parse, p, 2) != Route(parse, q, 2)
      && !Pool.Affinity(TrackerPool(parse, 2, bound), [p, q])
  {
    var p, q := Icmp(src, dst, 8, 0, t1), Icmp(src, dst, 3, 0, t2);
    LessTotal(src, dst);
    var a, b := parse(src), parse(dst);
    HashedSum(a, b, 8, 0);
    HashedSum(b, a, 0, 8);
    HashedSum(a, b, 3, 0);
    HashedSum(b, a, 0, 3);
    FnvParity(HashedBytes(parse, p));
    FnvParity(HashedBytes(parse, q));
    assert Route(parse, p, 2) != Route(parse, q, 2);
    var c, ps := TrackerPool(parse, 2, bound), [p, q];
    assert c.d.takes(ps[0]) && c.d.takes(ps[1]) && c.d.key(ps[0]) == c.d.key(ps[1]);
    assert c.route(ps[0]) != c.route(ps[1]);
  }
}
