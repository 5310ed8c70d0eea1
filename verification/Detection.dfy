/** Detection aggregates over flows, and the rules that read them: traffic concentration,
    packet flood and unusual ports. */
module Detection {
  import opened MapSums

  datatype Flow = Flow(kind: string, srcIP: string, dstIP: string, srcPort: nat, dstPort: nat, packets: int)

  // ----- tallies

  /** Adds up weights by key, in one pass. */
  function Tally<F>(fs: seq<F>, key: F -> string, weight: F -> int): map<string, int> {
    if fs == [] then map[]
    else
      var m, f := Tally(fs[..|fs| - 1], key, weight), fs[|fs| - 1];
      Bump(m, key(f), weight(f))
  }

  /** Go's `m[k] += n` on a map that reads 0 for missing keys. */
  function Bump(m: map<string, int>, k: string, n: int): map<string, int> {
    m[k := (if k in m then m[k] else 0) + n]
  }

  function Sum<F>(fs: seq<F>, weight: F -> int): int {
    if fs == [] then 0 else Sum(fs[..|fs| - 1], weight) + weight(fs[|fs| - 1])
  }

  function SumFor<F>(fs: seq<F>, key: F -> string, weight: F -> int, k: string): int {
    if fs == [] then 0
    else SumFor(fs[..|fs| - 1], key, weight, k) + (if key(fs[|fs| - 1]) == k then weight(fs[|fs| - 1]) else 0)
  }

  /** What a tally holds: one entry per key that occurs, with its weights summed. */
  lemma {:induction false} TallyEntry<F>(fs: seq<F>, key: F -> string, weight: F -> int, k: string)
    ensures k in Tally(fs, key, weight) <==> exists i :: 0 <= i < |fs| && key(fs[i]) == k
    ensures (if k in Tally(fs, key, weight) then Tally(fs, key, weight)[k] else 0) == SumFor(fs, key, weight, k)
    decreases |fs|
  {
    if fs != [] {
      var front, f := fs[..|fs| - 1], fs[|fs| - 1];
      TallyEntry(front, key, weight, k);
      assert forall i :: 0 <= i < |front| ==> front[i] == fs[i];
      if i :| 0 <= i < |fs| && key(fs[i]) == k {
        assert i < |front| ==> key(front[i]) == k;
      }
      if i :| 0 <= i < |front| && key(front[i]) == k {
        assert key(fs[i]) == k;
      }
    }
  }

  /** Every per-key tally sums to the grand total. */
  lemma {:induction false} TallyTotal<F>(fs: seq<F>, key: F -> string, weight: F -> int)
    ensures Total(Tally(fs, key, weight)) == Sum(fs, weight)
    decreases |fs|
  {
    if fs != [] {
      var front, f := fs[..|fs| - 1], fs[|fs| - 1];
      TallyTotal(front, key, weight);
      var m := Tally(front, key, weight);
      TotalUpdate(m, key(f), (if key(f) in m then m[key(f)] else 0) + weight(f));
    }
  }

  lemma {:induction false} TallyNonNegative<F>(fs: seq<F>, key: F -> string, weight: F -> int)
    requires forall i :: 0 <= i < |fs| ==> weight(fs[i]) >= 0
    ensures forall k :: k in Tally(fs, key, weight) ==> Tally(fs, key, weight)[k] >= 0
    decreases |fs|
  {
    if fs != [] {
      assert forall i :: 0 <= i < |fs| - 1 ==> fs[..|fs| - 1][i] == fs[i];
      TallyNonNegative(fs[..|fs| - 1], key, weight);
    }
  }

  lemma {:induction false} SumForRemove<F>(fs: seq<F>, key: F -> string, weight: F -> int, k: string, j: nat)
    requires j < |fs|
    ensures SumFor(fs, key, weight, k) ==
            SumFor(fs[..j] + fs[j + 1..], key, weight, k) + (if key(fs[j]) == k then weight(fs[j]) else 0)
    decreases |fs|
  {
    var n := |fs| - 1;
    var rest := fs[..j] + fs[j + 1..];
    if j == n {
      assert rest == fs[..n];
    } else {
      SumForRemove(fs[..n], key, weight, k, j);
      assert fs[..n][..j] + fs[..n][j + 1..] == rest[..|rest| - 1];
      assert rest[|rest| - 1] == fs[n];
    }
  }

  lemma TakeOut<F>(gs: seq<F>, j: nat)
    requires j < |gs|
    ensures multiset(gs) == multiset(gs[..j] + gs[j + 1..]) + multiset{gs[j]}
  {
    assert gs == gs[..j] + [gs[j]] + gs[j + 1..];
  }

  lemma RestMatches<F>(front: seq<F>, f: F, gs: seq<F>, j: nat)
    requires multiset(front + [f]) == multiset(gs) && j < |gs| && gs[j] == f
    ensures multiset(front) == multiset(gs[..j] + gs[j + 1..])
  {
    TakeOut(gs, j);
    var a, b := multiset(front), multiset(gs[..j] + gs[j + 1..]);
    assert a + multiset{f} == b + multiset{f};
    assert a == (a + multiset{f}) - multiset{f} == (b + multiset{f}) - multiset{f};
  }

  lemma {:induction false} SumForPermutes<F>(fs: seq<F>, gs: seq<F>, key: F -> string, weight: F -> int, k: string)
    requires multiset(fs) == multiset(gs)
    ensures SumFor(fs, key, weight, k) == SumFor(gs, key, weight, k)
    decreases |fs|
  {
    if fs == [] {
      assert |gs| == |multiset(gs)| == 0;
    } else {
      var front, f := fs[..|fs| - 1], fs[|fs| - 1];
      assert fs == front + [f];
      assert f in multiset(gs);
      var j :| 0 <= j < |gs| && gs[j] == f;
      var rest := gs[..j] + gs[j + 1..];
      RestMatches(front, f, gs, j);
      SumForPermutes(front, rest, key, weight, k);
      SumForRemove(gs, key, weight, k, j);
    }
  }

  /** Tallies do not depend on the order of the flows. */
  lemma TallyPermutes<F>(fs: seq<F>, gs: seq<F>, key: F -> string, weight: F -> int)
    requires multiset(fs) == multiset(gs)
    ensures Tally(fs, key, weight) == Tally(gs, key, weight)
  {
    forall k
      ensures k in Tally(fs, key, weight) <==> k in Tally(gs, key, weight)
      ensures k in Tally(fs, key, weight) ==> Tally(fs, key, weight)[k] == Tally(gs, key, weight)[k]
    {
      TallyEntry(fs, key, weight, k);
      TallyEntry(gs, key, weight, k);
      SumForPermutes(fs, gs, key, weight, k);
      SameMembers(fs, gs);
      if i :| 0 <= i < |fs| && key(fs[i]) == k {
        assert fs[i] in gs;
      }
      if i :| 0 <= i < |gs| && key(gs[i]) == k {
        assert gs[i] in fs;
      }
    }
  }

  lemma SameMembers<F>(fs: seq<F>, gs: seq<F>)
    requires multiset(fs) == multiset(gs)
    ensures forall x :: x in fs <==> x in gs
  {
    forall x
      ensures x in fs <==> x in gs
    {
      assert x in fs <==> x in multiset(fs);
      assert x in gs <==> x in multiset(gs);
    }
  }

  // ----- computeAggregates

  datatype Aggregates = Aggregates(
    totalFlows: nat, totalPackets: int,
    flowsByType: map<string, int>, packetsByType: map<string, int>,
    flowsPerSrc: map<string, int>, flowsPerDst: map<string, int>, packetsPerSrc: map<string, int>)

  function Src(f: Flow): string { f.srcIP }

  function Dst(f: Flow): string { f.dstIP }

  function Kind(f: Flow): string { f.kind }

  function One(f: Flow): int { 1 }

  function Packets(f: Flow): int { f.packets }

  function Aggregated(fs: seq<Flow>): Aggregates {
    Aggregates(|fs|, Sum(fs, Packets), Tally(fs, Kind, One), Tally(fs, Kind, Packets),
               Tally(fs, Src, One), Tally(fs, Dst, One), Tally(fs, Src, Packets))
  }

  /** The volume and source/destination part of computeAggregates' single loop. */
  method ComputeAggregates(flows: seq<Flow>) returns (agg: Aggregates)
    ensures agg == Aggregated(flows)
  {
    var totalPackets := 0;
    var byType, packetsByType, perSrc, perDst, packetsPerSrc := map[], map[], map[], map[], map[];
    for i := 0 to |flows|
      invariant Aggregates(i, totalPackets, byType, packetsByType, perSrc, perDst, packetsPerSrc)
             == Aggregated(flows[..i])
    {
      var f := flows[i];
      assert flows[..i + 1][..i] == flows[..i];
      byType := Bump(byType, f.kind, 1);
      packetsByType := Bump(packetsByType, f.kind, f.packets);
      totalPackets := totalPackets + f.packets;
      perSrc := Bump(perSrc, f.srcIP, 1);
      perDst := Bump(perDst, f.dstIP, 1);
      packetsPerSrc := Bump(packetsPerSrc, f.srcIP, f.packets);
    }
    assert flows[..|flows|] == flows;
    agg := Aggregates(|flows|, totalPackets, byType, packetsByType, perSrc, perDst, packetsPerSrc);
  }

  /** The flows that pass a test, in order. */
  function Where(fs: seq<Flow>, test: Flow -> bool): seq<Flow> {
    if fs == [] then []
    else Where(fs[..|fs| - 1], test) + (if test(fs[|fs| - 1]) then [fs[|fs| - 1]] else [])
  }

  function PacketSum(fs: seq<Flow>): int {
    if fs == [] then 0 else PacketSum(fs[..|fs| - 1]) + fs[|fs| - 1].packets
  }

  function Entry(m: map<string, int>, k: string): int { if k in m then m[k] else 0 }

  function HasKey(key: Flow -> string, k: string): Flow -> bool { (f: Flow) => key(f) == k }

  function OfType(k: string): Flow -> bool { (f: Flow) => f.kind == k }

  function FromSource(k: string): Flow -> bool { (f: Flow) => f.srcIP == k }

  function ToDestination(k: string): Flow -> bool { (f: Flow) => f.dstIP == k }

  lemma {:induction false} SumForWhere(fs: seq<Flow>, key: Flow -> string, k: string)
    ensures SumFor(fs, key, One, k) == |Where(fs, HasKey(key, k))|
    ensures SumFor(fs, key, Packets, k) == PacketSum(Where(fs, HasKey(key, k)))
    decreases |fs|
  {
    if fs != [] {
      var front, f := fs[..|fs| - 1], fs[|fs| - 1];
      SumForWhere(front, key, k);
      var w := Where(front, HasKey(key, k));
      if key(f) == k {
        assert (w + [f])[..|w|] == w;
      } else {
        assert w + [] == w;
      }
    }
  }

  lemma {:induction false} SumIsPacketSum(fs: seq<Flow>)
    ensures Sum(fs, Packets) == PacketSum(fs)
    decreases |fs|
  {
    if fs != [] { SumIsPacketSum(fs[..|fs| - 1]); }
  }

  lemma {:induction false} WhereSame(fs: seq<Flow>, a: Flow -> bool, b: Flow -> bool)
    requires forall f :: a(f) == b(f)
    ensures Where(fs, a) == Where(fs, b)
    decreases |fs|
  {
    if fs != [] { WhereSame(fs[..|fs| - 1], a, b); }
  }

  /** What every figure means: the number of flows, or of their packets, with the given
      type, source or destination. */
  lemma FiguresExactly(fs: seq<Flow>, k: string)
    ensures
      var a := Aggregated(fs);
      && a.totalFlows == |fs| && a.totalPackets == PacketSum(fs)
      && Entry(a.flowsByType, k) == |Where(fs, OfType(k))|
      && Entry(a.packetsByType, k) == PacketSum(Where(fs, OfType(k)))
      && Entry(a.flowsPerSrc, k) == |Where(fs, FromSource(k))|
      && Entry(a.flowsPerDst, k) == |Where(fs, ToDestination(k))|
      && Entry(a.packetsPerSrc, k) == PacketSum(Where(fs, FromSource(k)))
  {
    SumIsPacketSum(fs);
    FigureOf(fs, Kind, k);
    FigureOf(fs, Src, k);
    FigureOf(fs, Dst, k);
    WhereSame(fs, HasKey(Kind, k), OfType(k));
    WhereSame(fs, HasKey(Src, k), FromSource(k));
    WhereSame(fs, HasKey(Dst, k), ToDestination(k));
  }

  lemma FigureOf(fs: seq<Flow>, key: Flow -> string, k: string)
    ensures Entry(Tally(fs, key, One), k) == |Where(fs, HasKey(key, k))|
    ensures Entry(Tally(fs, key, Packets), k) == PacketSum(Where(fs, HasKey(key, k)))
  {
    TallyEntry(fs, key, One, k);
    TallyEntry(fs, key, Packets, k);
    SumForWhere(fs, key, k);
  }

  lemma {:induction false} SumOnes(fs: seq<Flow>)
    ensures Sum(fs, One) == |fs|
    decreases |fs|
  {
    if fs != [] { SumOnes(fs[..|fs| - 1]); }
  }

  /** Main aggregation theorem: per-type, per-source and per-destination counts each sum to
      the totals, and none of them depends on the order of the flows. */
  lemma AggregatesAddUp(fs: seq<Flow>)
    ensures
      var a := Aggregated(fs);
      && Total(a.flowsByType) == Total(a.flowsPerSrc) == Total(a.flowsPerDst) == a.totalFlows
      && Total(a.packetsByType) == Total(a.packetsPerSrc) == a.totalPackets
  {
    SumOnes(fs);
    TallyTotal(fs, Kind, One);
    TallyTotal(fs, Src, One);
    TallyTotal(fs, Dst, One);
    TallyTotal(fs, Kind, Packets);
    TallyTotal(fs, Src, Packets);
  }

  lemma AggregatesPermute(fs: seq<Flow>, gs: seq<Flow>)
    requires multiset(fs) == multiset(gs)
    ensures Aggregated(fs) == Aggregated(gs)
  {
    TallyPermutes(fs, gs, Kind, One);
    TallyPermutes(fs, gs, Kind, Packets);
    TallyPermutes(fs, gs, Src, One);
    TallyPermutes(fs, gs, Dst, One);
    TallyPermutes(fs, gs, Src, Packets);
    TallyTotal(fs, Src, Packets);
    TallyTotal(gs, Src, Packets);
    assert |fs| == |multiset(fs)| == |multiset(gs)| == |gs|;
  }

  // ----- concentration and flood

  /** The keys of a map that satisfy a test, collected in whatever order a range visits. */
  method Select(counts: map<string, int>, test: int -> bool) returns (hits: seq<string>)
    ensures forall k :: k in hits <==> k in counts && test(counts[k])
    ensures forall i, j :: 0 <= i < j < |hits| ==> hits[i] != hits[j]
  {
    hits := [];
    var left := counts.Keys;
    while left != {}
      invariant left <= counts.Keys
      invariant forall k :: k in hits <==> k in counts && k !in left && test(counts[k])
      invariant forall i, j :: 0 <= i < j < |hits| ==> hits[i] != hits[j]
      decreases |left|
    {
      var k :| k in left;
      if test(counts[k]) {
        hits := hits + [k];
      }
      left := left - {k};
    }
  }

  /** More than half of all flows. */
  predicate Concentrated(count: int, total: int) { count as real > total as real * 0.5 }

  predicate BothConcentrated(counts: map<string, int>, a: string, b: string, total: int) {
    a in counts && b in counts && Concentrated(counts[a], total) && Concentrated(counts[b], total)
  }

  /** trafficConcentrationRule: the sources and the destinations it alerts on. */
  method ConcentrationAlerts(agg: Aggregates) returns (sources: seq<string>, destinations: seq<string>)
    ensures agg.totalFlows < 10 ==> sources == [] && destinations == []
    ensures agg.totalFlows >= 10 ==>
              && (forall k :: k in sources <==> k in agg.flowsPerSrc && Concentrated(agg.flowsPerSrc[k], agg.totalFlows))
              && (forall k :: k in destinations <==> k in agg.flowsPerDst && Concentrated(agg.flowsPerDst[k], agg.totalFlows))
    ensures forall i, j :: 0 <= i < j < |sources| ==> sources[i] != sources[j]
    ensures forall i, j :: 0 <= i < j < |destinations| ==> destinations[i] != destinations[j]
  {
    sources, destinations := [], [];
    if agg.totalFlows < 10 {
      return;
    }
    sources := Select(agg.flowsPerSrc, (n: int) => Concentrated(n, agg.totalFlows));
    destinations := Select(agg.flowsPerDst, (n: int) => Concentrated(n, agg.totalFlows));
  }

  /** More than 80 percent of all packets, and at least 1000. */
  predicate Floods(count: int, total: int)
    requires total > 0
  {
    count as real / total as real > 0.8 && count >= 1000
  }

  /** packetFloodRule: the sources it alerts on. */
  method FloodAlerts(agg: Aggregates) returns (sources: seq<string>)
    ensures agg.totalPackets < 1000 ==> sources == []
    ensures agg.totalPackets >= 1000 ==>
              forall k :: k in sources <==> k in agg.packetsPerSrc && Floods(agg.packetsPerSrc[k], agg.totalPackets)
    ensures forall i, j :: 0 <= i < j < |sources| ==> sources[i] != sources[j]
  {
    sources := [];
    if agg.totalPackets < 1000 {
      return;
    }
    var total := agg.totalPackets;
    sources := Select(agg.packetsPerSrc, (n: int) => total > 0 && Floods(n, total));
  }

  /** The thresholds in whole numbers: more than half, and more than four fifths. */
  lemma Thresholds(count: int, total: int)
    ensures Concentrated(count, total) <==> 2 * count > total
    ensures total > 0 ==> (Floods(count, total) <==> 5 * count > 4 * total && count >= 1000)
  {
    HalfInWholes(count, total);
    if total > 0 {
      FourFifths(count as real / total as real, count as real, total as real);
      assert (5 * count) as real == 5.0 * count as real && (4 * total) as real == 4.0 * total as real;
    }
  }

  lemma HalfInWholes(count: int, total: int)
    ensures Concentrated(count, total) <==> 2 * count > total
  {
    assert (2 * count) as real == 2.0 * count as real;
  }

  lemma FourFifths(q: real, x: real, y: real)
    requires y > 0.0 && q * y == x
    ensures q > 0.8 <==> 5.0 * x > 4.0 * y
  {
    var d := q - 0.8;
    assert d * y == x - 0.8 * y;
    assert d > 0.0 <==> d * y > 0.0;
  }

  /** Main concentration theorem: at most one source and one destination are concentrated. */
  lemma AtMostOneConcentrated(fs: seq<Flow>, a: string, b: string)
    ensures
      var agg := Aggregated(fs);
      && (BothConcentrated(agg.flowsPerSrc, a, b, agg.totalFlows) ==> a == b)
      && (BothConcentrated(agg.flowsPerDst, a, b, agg.totalFlows) ==> a == b)
  {
    var agg := Aggregated(fs);
    AggregatesAddUp(fs);
    TallyNonNegative(fs, Src, One);
    TallyNonNegative(fs, Dst, One);
    if a != b && a in agg.flowsPerSrc && b in agg.flowsPerSrc { TwoEntries(agg.flowsPerSrc, a, b); }
    if a != b && a in agg.flowsPerDst && b in agg.flowsPerDst { TwoEntries(agg.flowsPerDst, a, b); }
  }

  lemma FloodShare(count: int, total: int)
    requires total > 0 && Floods(count, total)
    ensures 10 * count > 8 * total
  {
    var x, y := count as real, total as real;
    assert x / y * y == x;
    assert x > 0.8 * y;
  }

  /** Main flood theorem: at most one source floods. Packet counts come from counters that
      start at zero, so they are never negative. */
  lemma AtMostOneFlood(fs: seq<Flow>, a: string, b: string)
    requires forall i :: 0 <= i < |fs| ==> fs[i].packets >= 0
    requires Sum(fs, Packets) >= 1000
    requires var m := Aggregated(fs).packetsPerSrc;
             a in m && b in m && Floods(m[a], Sum(fs, Packets)) && Floods(m[b], Sum(fs, Packets))
    ensures a == b
  {
    var m := Aggregated(fs).packetsPerSrc;
    AggregatesAddUp(fs);
    TallyNonNegative(fs, Src, Packets);
    FloodShare(m[a], Sum(fs, Packets));
    FloodShare(m[b], Sum(fs, Packets));
    if a != b { TwoEntries(m, a, b); }
  }

  // ----- unusual ports

  /** standardPorts: the well-known ports of a protocol; none for one it does not list. */
  function StandardPorts(kind: string): seq<nat> {
    if kind == "SIP" then [5060, 5061]
    else if kind == "DNS" then [53]
    else if kind == "Diameter" then [3868]
    else if kind == "GTP" then [2123, 2152]
    else if kind == "PFCP" then [8805]
    else []
  }

  datatype PortKey = PortKey(kind: string, srcIP: string, dstIP: string, srcPort: nat, dstPort: nat)

  function PortKeyOf(f: Flow): PortKey { PortKey(f.kind, f.srcIP, f.dstIP, f.srcPort, f.dstPort) }

  predicate Offends(f: Flow) {
    var ports := StandardPorts(f.kind);
    ports != [] && f.srcPort !in ports && f.dstPort !in ports
  }

  /** The keys of the offending flows, one per flow. */
  function OffendingKeys(fs: seq<Flow>): seq<PortKey> {
    if fs == [] then []
    else OffendingKeys(fs[..|fs| - 1]) + (if Offends(fs[|fs| - 1]) then [PortKeyOf(fs[|fs| - 1])] else [])
  }

  /** Each key once, where it was first seen. */
  function FirstSeen<K(==)>(ks: seq<K>): seq<K> {
    if ks == [] then []
    else
      var front, k := FirstSeen(ks[..|ks| - 1]), ks[|ks| - 1];
      if k in front then front else front + [k]
  }

  datatype PortAlert = PortAlert(key: PortKey, occurrences: nat)

  function Occurrences(alerts: seq<PortAlert>): nat {
    if alerts == [] then 0 else Occurrences(alerts[..|alerts| - 1]) + alerts[|alerts| - 1].occurrences
  }

  /** Which flows offend, protocol by protocol. */
  lemma OffendsExactly(f: Flow)
    ensures Offends(f) <==>
            || (f.kind == "SIP" && {f.srcPort, f.dstPort} !! {5060, 5061})
            || (f.kind == "DNS" && {f.srcPort, f.dstPort} !! {53})
            || (f.kind == "Diameter" && {f.srcPort, f.dstPort} !! {3868})
            || (f.kind == "GTP" && {f.srcPort, f.dstPort} !! {2123, 2152})
            || (f.kind == "PFCP" && {f.srcPort, f.dstPort} !! {8805})
  {
  }

  /** Alerts are told apart by protocol, both addresses and both ports. */
  lemma PortKeyExactly(f: Flow, g: Flow)
    ensures PortKeyOf(f) == PortKeyOf(g) <==>
            f.kind == g.kind && f.srcIP == g.srcIP && f.dstIP == g.dstIP && f.srcPort == g.srcPort && f.dstPort == g.dstPort
  {
  }

  /** The port test of the rule's loop. */
  method OffendsLoop(f: Flow) returns (offends: bool)
    ensures offends == Offends(f)
  {
    var ports := StandardPorts(f.kind);
    if |ports| == 0 {
      return false;
    }
    var srcMatch, dstMatch := false, false;
    for i := 0 to |ports|
      invariant srcMatch == (f.srcPort in ports[..i]) && dstMatch == (f.dstPort in ports[..i])
    {
      assert ports[..i + 1] == ports[..i] + [ports[i]];
      if f.srcPort == ports[i] {
        srcMatch := true;
      }
      if f.dstPort == ports[i] {
        dstMatch := true;
      }
    }
    assert ports[..|ports|] == ports;
    return !(srcMatch || dstMatch);
  }

  lemma {:induction false} FirstSeenFacts<K>(ks: seq<K>)
    ensures forall k :: k in FirstSeen(ks) <==> k in ks
    ensures forall i, j :: 0 <= i < j < |FirstSeen(ks)| ==> FirstSeen(ks)[i] != FirstSeen(ks)[j]
    decreases |ks|
  {
    if ks != [] {
      FirstSeenFacts(ks[..|ks| - 1]);
      assert ks == ks[..|ks| - 1] + [ks[|ks| - 1]];
    }
  }

  /** Later flows only add keys behind those already seen. */
  lemma {:induction false} FirstSeenOrder<K>(ks: seq<K>, n: nat)
    requires n <= |ks|
    ensures FirstSeen(ks[..n]) <= FirstSeen(ks)
    decreases |ks|
  {
    if n == |ks| {
      assert ks[..n] == ks;
    } else {
      FirstSeenOrder(ks[..|ks| - 1], n);
      assert ks[..|ks| - 1][..n] == ks[..n];
    }
  }

  /** One flow of the rule's loop. */
  method NotePort(f: Flow, counts: map<PortKey, nat>, order: seq<PortKey>, ghost keys: seq<PortKey>)
    returns (counts': map<PortKey, nat>, order': seq<PortKey>, ghost keys': seq<PortKey>)
    requires order == FirstSeen(keys) && Counted(counts, order, keys)
    ensures keys' == keys + (if Offends(f) then [PortKeyOf(f)] else [])
    ensures order' == FirstSeen(keys') && Counted(counts', order', keys')
  {
    counts', order', keys' := counts, order, keys;
    var offends := OffendsLoop(f);
    if offends {
      var key := PortKeyOf(f);
      FirstSeenAppend(keys, key);
      CountOne(counts, order, keys, key);
      if key in counts {
        counts' := counts[key := counts[key] + 1];
      } else {
        counts' := counts[key := 1];
        order' := order + [key];
      }
      keys' := keys + [key];
    }
  }

  /** The rule's loop over all flows. */
  method NotePorts(flows: seq<Flow>) returns (counts: map<PortKey, nat>, order: seq<PortKey>)
    ensures order == FirstSeen(OffendingKeys(flows)) && Counted(counts, order, OffendingKeys(flows))
  {
    order, counts := [], map[];
    ghost var keys: seq<PortKey> := [];
    for i := 0 to |flows|
      invariant keys == OffendingKeys(flows[..i])
      invariant order == FirstSeen(keys) && Counted(counts, order, keys)
    {
      assert flows[..i + 1][..i] == flows[..i];
      counts, order, keys := NotePort(flows[i], counts, order, keys);
    }
    assert flows[..|flows|] == flows;
  }

  /** unusualPortRule: one alert per distinct key, in first-seen order, with the number of
      offending flows that have the key. */
  method UnusualPortAlerts(flows: seq<Flow>) returns (alerts: seq<PortAlert>)
    ensures |alerts| == |FirstSeen(OffendingKeys(flows))|
    ensures forall i :: 0 <= i < |alerts| ==>
              && alerts[i].key == FirstSeen(OffendingKeys(flows))[i]
              && alerts[i].occurrences == multiset(OffendingKeys(flows))[alerts[i].key]
  {
    var counts, order := NotePorts(flows);
    alerts := AlertsOf(order, counts);
  }

  function AlertsOf(order: seq<PortKey>, counts: map<PortKey, nat>): (r: seq<PortAlert>)
    requires forall k :: k in order ==> k in counts
    ensures |r| == |order|
    ensures forall i :: 0 <= i < |r| ==> r[i].key == order[i] && r[i].occurrences == counts[order[i]]
  {
    seq(|order|, i requires 0 <= i < |order| && order[i] in counts => PortAlert(order[i], counts[order[i]]))
  }

  /** `counts` has the keys of `order`, each with its number of occurrences in `keys`. */
  ghost predicate Counted(counts: map<PortKey, nat>, order: seq<PortKey>, keys: seq<PortKey>) {
    && (forall k :: k in counts <==> k in order)
    && (forall k :: k in multiset(keys) <==> k in counts)
    && (forall k :: k in counts ==> counts[k] == multiset(keys)[k])
  }

  lemma CountOne(counts: map<PortKey, nat>, order: seq<PortKey>, keys: seq<PortKey>, key: PortKey)
    requires Counted(counts, order, keys)
    ensures key in counts ==> Counted(counts[key := counts[key] + 1], order, keys + [key])
    ensures key !in counts ==> Counted(counts[key := 1], order + [key], keys + [key])
  {
    assert multiset(keys + [key]) == multiset(keys) + multiset{key};
    assert forall k :: k in order + [key] <==> k in order || k == key;
  }

  lemma FirstSeenAppend<K>(ks: seq<K>, k: K)
    ensures FirstSeen(ks + [k]) == if k in FirstSeen(ks) then FirstSeen(ks) else FirstSeen(ks) + [k]
  {
    assert (ks + [k])[..|ks|] == ks;
  }

  lemma {:induction false} OccurrencesOf(alerts: seq<PortAlert>, all: multiset<PortKey>)
    requires forall i, j :: 0 <= i < j < |alerts| ==> alerts[i].key != alerts[j].key
    requires forall i :: 0 <= i < |alerts| ==> alerts[i].occurrences == all[alerts[i].key]
    requires forall k :: k in all ==> exists i :: 0 <= i < |alerts| && alerts[i].key == k
    ensures Occurrences(alerts) == |all|
    decreases |alerts|
  {
    if alerts == [] {
      assert all == multiset{};
    } else {
      var n := |alerts| - 1;
      var front, k := alerts[..n], alerts[n].key;
      var rest := all[k := 0];
      assert forall i :: 0 <= i < n ==> front[i] == alerts[i];
      forall x | x in rest
        ensures exists i :: 0 <= i < |front| && front[i].key == x
      {
        var i :| 0 <= i < |alerts| && alerts[i].key == x;
        assert front[i].key == x;
      }
      OccurrencesOf(front, rest);
      assert all == rest[k := all[k]];
    }
  }

  /** Main deduplication theorem: the alerts have distinct keys, exactly the offending ones,
      and their occurrence counts sum to the number of offending flows. */
  lemma PortAlertsAccount(flows: seq<Flow>, alerts: seq<PortAlert>)
    requires |alerts| == |FirstSeen(OffendingKeys(flows))|
    requires forall i :: 0 <= i < |alerts| ==>
               && alerts[i].key == FirstSeen(OffendingKeys(flows))[i]
               && alerts[i].occurrences == multiset(OffendingKeys(flows))[alerts[i].key]
    ensures forall i, j :: 0 <= i < j < |alerts| ==> alerts[i].key != alerts[j].key
    ensures forall k :: k in OffendingKeys(flows) <==> exists i :: 0 <= i < |alerts| && alerts[i].key == k
    ensures Occurrences(alerts) == |OffendingKeys(flows)|
  {
    var ks := OffendingKeys(flows);
    FirstSeenFacts(ks);
    forall k
      ensures k in ks <==> exists i :: 0 <= i < |alerts| && alerts[i].key == k
    {
      if k in ks {
        var i :| 0 <= i < |FirstSeen(ks)| && FirstSeen(ks)[i] == k;
        assert alerts[i].key == k;
      }
    }
    assert forall k :: k in multiset(ks) <==> k in ks;
    OccurrencesOf(alerts, multiset(ks));
  }
}
