/** Stateful decoders that keep one record per flow key: what they compute for a key
    depends on the packets of that key and on nothing else. */
module KeyedFold {

  /** Which packets a decoder takes, their keys, a record's first state and its update. */
  datatype Decoder<!P, !K, !R> = Decoder(
    takes: P -> bool, key: P -> K, first: P -> R, touch: (R, P) -> R)

  ghost function Handle<P, K, R>(d: Decoder<P, K, R>, m: map<K, R>, p: P): map<K, R> {
    if !d.takes(p) then m
    else m[d.key(p) := d.touch(if d.key(p) in m then m[d.key(p)] else d.first(p), p)]
  }

  /** One sequential decoder run on a capture. */
  ghost function Track<P, K, R>(d: Decoder<P, K, R>, ps: seq<P>): map<K, R> {
    if ps == [] then map[] else Handle(d, Track(d, ps[..|ps| - 1]), ps[|ps| - 1])
  }

  ghost predicate Has<P, K, R>(d: Decoder<P, K, R>, p: P, k: K) { d.takes(p) && d.key(p) == k }

  /** The packets of one flow, in capture order. */
  ghost function PacketsOf<P, K, R>(d: Decoder<P, K, R>, ps: seq<P>, k: K): seq<P> {
    if ps == [] then []
    else PacketsOf(d, ps[..|ps| - 1], k) + (if Has(d, ps[|ps| - 1], k) then [ps[|ps| - 1]] else [])
  }

  /** The record of one flow, from its packets alone. */
  ghost function FoldFlow<P, K, R>(d: Decoder<P, K, R>, qs: seq<P>): R
    requires qs != []
  {
    if |qs| == 1 then d.touch(d.first(qs[0]), qs[0])
    else d.touch(FoldFlow(d, qs[..|qs| - 1]), qs[|qs| - 1])
  }

  /** A decoder's entry for a flow is the fold of that flow's packets. */
  lemma {:induction false} TrackByFlow<P, K, R>(d: Decoder<P, K, R>, ps: seq<P>, k: K)
    ensures k in Track(d, ps) <==> PacketsOf(d, ps, k) != []
    ensures k in Track(d, ps) ==> Track(d, ps)[k] == FoldFlow(d, PacketsOf(d, ps, k))
    decreases |ps|
  {
    if ps != [] {
      var front, p := ps[..|ps| - 1], ps[|ps| - 1];
      TrackByFlow(d, front, k);
      var qs := PacketsOf(d, front, k);
      if Has(d, p, k) {
        assert (qs + [p])[..|qs|] == qs;
      } else {
        assert PacketsOf(d, ps, k) == qs;
      }
    }
  }

  /** The packets the decoder takes. */
  ghost function Taken<P, K, R>(d: Decoder<P, K, R>, ps: seq<P>): seq<P> {
    if ps == [] then []
    else Taken(d, ps[..|ps| - 1]) + (if d.takes(ps[|ps| - 1]) then [ps[|ps| - 1]] else [])
  }

  /** Packets the decoder does not take may be inserted anywhere. */
  lemma {:induction false} OthersIgnored<P, K, R>(d: Decoder<P, K, R>, ps: seq<P>)
    ensures Track(d, ps) == Track(d, Taken(d, ps))
    decreases |ps|
  {
    if ps != [] {
      var front, p := ps[..|ps| - 1], ps[|ps| - 1];
      OthersIgnored(d, front);
      if d.takes(p) {
        assert (Taken(d, front) + [p])[..|Taken(d, front)|] == Taken(d, front);
      } else {
        assert Taken(d, ps) == Taken(d, front);
      }
    }
  }
}
