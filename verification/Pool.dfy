/** The flow-affinity decode pool: the reader routes packets into bounded worker queues,
    each worker decodes its own queue, and a collector gathers decoded packets in
    whatever order the workers finish them. Any number of workers, any queue bound and
    any schedule. */
module Pool {
  import opened KeyedFold

  /** `queues[i]`, `hands[i]` (the packet being decoded, if any) and `maps[i]` belong to
      worker i; `seen[i]` is the history of what it decoded. */
  datatype State<!P, !K, !R> = State(
    input: seq<P>, queues: seq<seq<P>>, hands: seq<seq<P>>, maps: seq<map<K, R>>,
    closed: bool, exited: seq<bool>, collected: seq<P>, seen: seq<seq<P>>)

  /** `synthetic` are the reassembled messages the worker's assembler feeds its decoders. */
  datatype Event<P> =
    | Submit
    | Decode(i: nat)
    | Collect(i: nat, synthetic: seq<P>)
    | Close
    | Exit(i: nat, synthetic: seq<P>)

  datatype Config<!P, !K, !R> = Config(d: Decoder<P, K, R>, route: P -> nat, n: nat, bound: nat)

  ghost predicate Sane<P(!new), K, R>(c: Config<P, K, R>) {
    0 < c.n && 0 < c.bound && forall p :: c.route(p) < c.n
  }

  ghost predicate Shaped<P, K, R>(c: Config<P, K, R>, s: State<P, K, R>) {
    |s.queues| == |s.hands| == |s.maps| == |s.exited| == |s.seen| == c.n
  }

  /** Synthetic packets must not be ones the decoder takes. */
  ghost predicate Synthetic<P, K, R>(c: Config<P, K, R>, ps: seq<P>) {
    forall i :: 0 <= i < |ps| ==> !c.d.takes(ps[i])
  }

  ghost function HandleAll<P, K, R>(d: Decoder<P, K, R>, m: map<K, R>, ps: seq<P>): map<K, R> {
    if ps == [] then m else Handle(d, HandleAll(d, m, ps[..|ps| - 1]), ps[|ps| - 1])
  }

  /** One step; a step that is not enabled changes nothing. Submitting blocks while the
      worker's queue is full. */
  ghost function Step<P(!new), K, R>(c: Config<P, K, R>, s: State<P, K, R>, e: Event<P>): (t: State<P, K, R>)
    requires Sane(c) && Shaped(c, s)
    ensures Shaped(c, t)
  {
    match e
    case Submit =>
      if s.input != [] && |s.queues[c.route(s.input[0])]| < c.bound then
        var w := c.route(s.input[0]);
        s.(input := s.input[1..], queues := s.queues[w := s.queues[w] + [s.input[0]]])
      else s
    case Decode(i) =>
      if i < c.n && s.queues[i] != [] && s.hands[i] == [] then
        var p := s.queues[i][0];
        s.(queues := s.queues[i := s.queues[i][1..]], hands := s.hands[i := [p]],
           maps := s.maps[i := Handle(c.d, s.maps[i], p)], seen := s.seen[i := s.seen[i] + [p]])
      else s
    case Collect(i, synthetic) =>
      if i < c.n && s.hands[i] != [] && Synthetic(c, synthetic) then
        s.(hands := s.hands[i := []], maps := s.maps[i := HandleAll(c.d, s.maps[i], synthetic)],
           collected := s.collected + s.hands[i])
      else s
    case Close => if s.input == [] then s.(closed := true) else s
    case Exit(i, synthetic) =>
      if i < c.n && s.closed && s.queues[i] == [] && s.hands[i] == [] && Synthetic(c, synthetic) then
        s.(exited := s.exited[i := true], maps := s.maps[i := HandleAll(c.d, s.maps[i], synthetic)])
      else s
  }

  ghost function Start<P, K, R>(c: Config<P, K, R>, capture: seq<P>): (s: State<P, K, R>)
    ensures Shaped(c, s)
  {
    State(capture, seq(c.n, _ => []), seq(c.n, _ => []), seq(c.n, _ => map[]), false, seq(c.n, _ => false), [],
          seq(c.n, _ => []))
  }

  ghost function Run<P(!new), K, R>(c: Config<P, K, R>, capture: seq<P>, es: seq<Event<P>>): (s: State<P, K, R>)
    requires Sane(c)
    ensures Shaped(c, s)
  {
    if es == [] then Start(c, capture) else Step(c, Run(c, capture, es[..|es| - 1]), es[|es| - 1])
  }

  /** Wait has returned: every worker drained its queue and exited. */
  predicate Finished<P, K, R>(s: State<P, K, R>) { forall i :: 0 <= i < |s.exited| ==> s.exited[i] }

  // ----- what each worker has, at any point of any schedule

  /** The packets routed to worker w, in order. */
  ghost function Routed<P>(route: P -> nat, ps: seq<P>, w: nat): seq<P> {
    if ps == [] then []
    else Routed(route, ps[..|ps| - 1], w) + (if route(ps[|ps| - 1]) == w then [ps[|ps| - 1]] else [])
  }

  lemma {:induction false} RoutedAppend<P>(route: P -> nat, a: seq<P>, b: seq<P>, w: nat)
    ensures Routed(route, a + b, w) == Routed(route, a, w) + Routed(route, b, w)
    decreases |b|
  {
    if b == [] {
      assert a + b == a;
    } else {
      RoutedAppend(route, a, b[..|b| - 1], w);
      assert (a + b)[..|a + b| - 1] == a + b[..|b| - 1];
    }
  }

  lemma RoutedOne<P>(route: P -> nat, p: P, w: nat)
    ensures Routed(route, [p], w) == if route(p) == w then [p] else []
  {
    assert [p][..0] == [];
  }

  lemma RoutedHead<P>(route: P -> nat, ps: seq<P>, w: nat)
    requires ps != []
    ensures Routed(route, ps, w) == (if route(ps[0]) == w then [ps[0]] else []) + Routed(route, ps[1..], w)
  {
    assert ps == [ps[0]] + ps[1..];
    RoutedAppend(route, [ps[0]], ps[1..], w);
    RoutedOne(route, ps[0], w);
  }

  /** What holds of one worker's parts, given the shared input, collector and close flag. */
  ghost predicate WorkerOk<P(!new), K, R>(
    c: Config<P, K, R>, capture: seq<P>, w: nat, input: seq<P>, closed: bool, collected: seq<P>,
    seen: seq<P>, queue: seq<P>, hand: seq<P>, m: map<K, R>, exited: bool)
  {
    && Routed(c.route, capture, w) == seen + queue + Routed(c.route, input, w)
    && seen == Routed(c.route, collected, w) + hand
    && m == Track(c.d, seen)
    && |hand| <= 1 && (hand != [] ==> c.route(hand[0]) == w)
    && |queue| <= c.bound
    && (forall j :: 0 <= j < |queue| ==> c.route(queue[j]) == w)
    && (exited ==> closed && queue == [] && hand == [])
    && (closed ==> input == [])
  }

  ghost predicate WorkerInv<P(!new), K, R>(c: Config<P, K, R>, capture: seq<P>, s: State<P, K, R>, w: nat)
    requires Sane(c) && Shaped(c, s) && w < c.n
  {
    WorkerOk(c, capture, w, s.input, s.closed, s.collected, s.seen[w], s.queues[w], s.hands[w], s.maps[w], s.exited[w])
  }

  ghost predicate Inv<P(!new), K, R>(c: Config<P, K, R>, capture: seq<P>, s: State<P, K, R>) {
    Sane(c) && Shaped(c, s) && forall w :: 0 <= w < c.n ==> WorkerInv(c, capture, s, w)
  }

  lemma {:induction false} SyntheticIgnored<P, K, R>(c: Config<P, K, R>, m: map<K, R>, ps: seq<P>)
    requires Synthetic(c, ps)
    ensures HandleAll(c.d, m, ps) == m
    decreases |ps|
  {
    if ps != [] {
      assert forall i :: 0 <= i < |ps| - 1 ==> ps[..|ps| - 1][i] == ps[i];
      SyntheticIgnored(c, m, ps[..|ps| - 1]);
    }
  }

  lemma SubmitKeeps<P(!new), K, R>(c: Config<P, K, R>, capture: seq<P>, s: State<P, K, R>, w: nat)
    requires Inv(c, capture, s) && w < c.n
    ensures WorkerInv(c, capture, Step(c, s, Submit), w)
  {
    assert WorkerInv(c, capture, s, w);
    if s.input != [] && |s.queues[c.route(s.input[0])]| < c.bound {
      RoutedHead(c.route, s.input, w);
      if c.route(s.input[0]) == w {
        SubmitToWorker(c, capture, s, w);
      } else {
        SubmitElsewhere(c, capture, s, w);
      }
    }
  }

  lemma SubmitToWorker<P(!new), K, R>(c: Config<P, K, R>, capture: seq<P>, s: State<P, K, R>, w: nat)
    requires Sane(c) && Shaped(c, s) && w < c.n && WorkerInv(c, capture, s, w)
    requires s.input != [] && c.route(s.input[0]) == w && |s.queues[w]| < c.bound
    requires Routed(c.route, s.input, w) == [s.input[0]] + Routed(c.route, s.input[1..], w)
    ensures WorkerInv(c, capture, Step(c, s, Submit), w)
  {
    var p, rest := s.input[0], Routed(c.route, s.input[1..], w);
    var q := s.queues[w] + [p];
    assert Step(c, s, Submit) == s.(input := s.input[1..], queues := s.queues[w := q]);
    assert s.seen[w] + s.queues[w] + ([p] + rest) == s.seen[w] + q + rest;
  }

  lemma SubmitElsewhere<P(!new), K, R>(c: Config<P, K, R>, capture: seq<P>, s: State<P, K, R>, w: nat)
    requires Sane(c) && Shaped(c, s) && w < c.n && WorkerInv(c, capture, s, w)
    requires s.input != [] && c.route(s.input[0]) != w && |s.queues[c.route(s.input[0])]| < c.bound
    requires Routed(c.route, s.input, w) == [] + Routed(c.route, s.input[1..], w)
    ensures WorkerInv(c, capture, Step(c, s, Submit), w)
  {
    var v := c.route(s.input[0]);
    var q := s.queues[v] + [s.input[0]];
    assert Step(c, s, Submit) == s.(input := s.input[1..], queues := s.queues[v := q]);
    assert s.queues[v := q][w] == s.queues[w];
    assert Routed(c.route, s.input, w) == Routed(c.route, s.input[1..], w);
  }

  lemma DecodeKeeps<P(!new), K, R>(c: Config<P, K, R>, capture: seq<P>, s: State<P, K, R>, i: nat, w: nat)
    requires Inv(c, capture, s) && w < c.n
    ensures WorkerInv(c, capture, Step(c, s, Decode(i)), w)
  {
    assert WorkerInv(c, capture, s, w);
    if i == w && s.queues[i] != [] && s.hands[i] == [] {
      var p, tail := s.queues[i][0], s.queues[i][1..];
      assert s.queues[i] == [p] + tail;
      assert s.seen[w] + s.queues[w] == (s.seen[w] + [p]) + tail;
      assert (s.seen[w] + [p])[..|s.seen[w]|] == s.seen[w];
      assert Routed(c.route, s.collected, w) + [] == s.seen[w];
    }
  }

  lemma CollectKeeps<P(!new), K, R>(c: Config<P, K, R>, capture: seq<P>, s: State<P, K, R>, i: nat, synthetic: seq<P>, w: nat)
    requires Inv(c, capture, s) && w < c.n
    ensures WorkerInv(c, capture, Step(c, s, Collect(i, synthetic)), w)
  {
    assert WorkerInv(c, capture, s, w);
    if i < c.n && s.hands[i] != [] && Synthetic(c, synthetic) {
      assert WorkerInv(c, capture, s, i);
      CollectOne(c, capture, s, i, synthetic, w);
    }
  }

  /** What a collecting step does to the parts of worker w. */
  lemma CollectFields<P(!new), K, R>(c: Config<P, K, R>, s: State<P, K, R>, i: nat, synthetic: seq<P>, w: nat)
    requires Sane(c) && Shaped(c, s) && w < c.n && i < c.n && s.hands[i] != [] && Synthetic(c, synthetic)
    ensures
      var t := Step(c, s, Collect(i, synthetic));
      && t.input == s.input && t.closed == s.closed && t.collected == s.collected + s.hands[i]
      && t.seen[w] == s.seen[w] && t.queues[w] == s.queues[w] && t.hands[w] == (if i == w then [] else s.hands[w])
      && t.maps[w] == s.maps[w] && t.exited[w] == s.exited[w]
  {
    SyntheticIgnored(c, s.maps[i], synthetic);
  }

  lemma CollectOne<P(!new), K, R>(c: Config<P, K, R>, capture: seq<P>, s: State<P, K, R>, i: nat, synthetic: seq<P>, w: nat)
    requires Sane(c) && Shaped(c, s) && w < c.n && WorkerInv(c, capture, s, w)
    requires i < c.n && |s.hands[i]| == 1 && c.route(s.hands[i][0]) == i && Synthetic(c, synthetic)
    ensures WorkerInv(c, capture, Step(c, s, Collect(i, synthetic)), w)
  {
    var t := Step(c, s, Collect(i, synthetic));
    CollectFields(c, s, i, synthetic, w);
    RoutedHand(c.route, s.collected, s.hands[i], i, w);
    CollectedOk(c, capture, w, t.input, t.closed, s.collected, t.seen[w], t.queues[w], s.hands[w], t.maps[w],
                t.exited[w], s.hands[i], i, t.collected, t.hands[w]);
  }

  lemma CollectedOk<P(!new), K, R>(
    c: Config<P, K, R>, capture: seq<P>, w: nat, input: seq<P>, closed: bool, collected: seq<P>,
    seen: seq<P>, queue: seq<P>, hand: seq<P>, m: map<K, R>, exited: bool, taken: seq<P>, i: nat,
    collected': seq<P>, hand': seq<P>)
    requires WorkerOk(c, capture, w, input, closed, collected, seen, queue, hand, m, exited)
    requires i == w ==> taken == hand
    requires collected' == collected + taken && hand' == if i == w then [] else hand
    requires Routed(c.route, collected', w) == Routed(c.route, collected, w) + (if i == w then taken else [])
    ensures WorkerOk(c, capture, w, input, closed, collected', seen, queue, hand', m, exited)
  {
    assert seen + [] == seen;
  }

  /** Collecting a worker's packet extends that worker's share and no other. */
  lemma RoutedHand<P>(route: P -> nat, collected: seq<P>, hand: seq<P>, i: nat, w: nat)
    requires |hand| == 1 && route(hand[0]) == i
    ensures Routed(route, collected + hand, w) == Routed(route, collected, w) + (if i == w then hand else [])
  {
    assert hand == [hand[0]];
    RoutedAppend(route, collected, hand, w);
    RoutedOne(route, hand[0], w);
  }

  lemma ExitKeeps<P(!new), K, R>(c: Config<P, K, R>, capture: seq<P>, s: State<P, K, R>, i: nat, synthetic: seq<P>, w: nat)
    requires Inv(c, capture, s) && w < c.n
    ensures WorkerInv(c, capture, Step(c, s, Exit(i, synthetic)), w)
  {
    assert WorkerInv(c, capture, s, w);
    if i < c.n && s.closed && s.queues[i] == [] && s.hands[i] == [] && Synthetic(c, synthetic) {
      ExitOne(c, capture, s, i, synthetic, w);
    }
  }

  lemma ExitFields<P(!new), K, R>(c: Config<P, K, R>, s: State<P, K, R>, i: nat, synthetic: seq<P>, w: nat)
    requires Sane(c) && Shaped(c, s) && w < c.n && i < c.n && s.closed && s.queues[i] == [] && s.hands[i] == []
    requires Synthetic(c, synthetic)
    ensures
      var t := Step(c, s, Exit(i, synthetic));
      && t.input == s.input && t.closed == s.closed && t.collected == s.collected
      && t.seen[w] == s.seen[w] && t.queues[w] == s.queues[w] && t.hands[w] == s.hands[w]
      && t.maps[w] == s.maps[w] && t.exited[w] == (if i == w then true else s.exited[w])
  {
    SyntheticIgnored(c, s.maps[i], synthetic);
  }

  lemma ExitOne<P(!new), K, R>(c: Config<P, K, R>, capture: seq<P>, s: State<P, K, R>, i: nat, synthetic: seq<P>, w: nat)
    requires Sane(c) && Shaped(c, s) && w < c.n && WorkerInv(c, capture, s, w)
    requires i < c.n && s.closed && s.queues[i] == [] && s.hands[i] == [] && Synthetic(c, synthetic)
    ensures WorkerInv(c, capture, Step(c, s, Exit(i, synthetic)), w)
  {
    var t := Step(c, s, Exit(i, synthetic));
    ExitFields(c, s, i, synthetic, w);
    ExitedOk(c, capture, w, t.input, t.closed, t.collected, t.seen[w], t.queues[w], t.hands[w], t.maps[w],
             s.exited[w], t.exited[w]);
  }

  lemma ExitedOk<P(!new), K, R>(
    c: Config<P, K, R>, capture: seq<P>, w: nat, input: seq<P>, closed: bool, collected: seq<P>,
    seen: seq<P>, queue: seq<P>, hand: seq<P>, m: map<K, R>, exited: bool, exited': bool)
    requires WorkerOk(c, capture, w, input, closed, collected, seen, queue, hand, m, exited)
    requires exited' ==> exited || (closed && queue == [] && hand == [])
    ensures WorkerOk(c, capture, w, input, closed, collected, seen, queue, hand, m, exited')
  {
  }

  lemma CloseKeeps<P(!new), K, R>(c: Config<P, K, R>, capture: seq<P>, s: State<P, K, R>, w: nat)
    requires Inv(c, capture, s) && w < c.n
    ensures WorkerInv(c, capture, Step(c, s, Close), w)
  {
    assert WorkerInv(c, capture, s, w);
  }

  lemma StepKeeps<P(!new), K, R>(c: Config<P, K, R>, capture: seq<P>, s: State<P, K, R>, e: Event<P>)
    requires Inv(c, capture, s)
    ensures Inv(c, capture, Step(c, s, e))
  {
    forall w | 0 <= w < c.n
      ensures WorkerInv(c, capture, Step(c, s, e), w)
    {
      match e
      case Submit => SubmitKeeps(c, capture, s, w);
      case Decode(i) => DecodeKeeps(c, capture, s, i, w);
      case Collect(i, synthetic) => CollectKeeps(c, capture, s, i, synthetic, w);
      case Close => CloseKeeps(c, capture, s, w);
      case Exit(i, synthetic) => ExitKeeps(c, capture, s, i, synthetic, w);
    }
  }

  lemma {:induction false} RunKeeps<P(!new), K, R>(c: Config<P, K, R>, capture: seq<P>, es: seq<Event<P>>)
    requires Sane(c)
    ensures Inv(c, capture, Run(c, capture, es))
    decreases |es|
  {
    if es == [] {
      forall w | 0 <= w < c.n
        ensures WorkerInv(c, capture, Start(c, capture), w)
      {
        assert [] + [] + Routed(c.route, capture, w) == Routed(c.route, capture, w);
      }
    } else {
      RunKeeps(c, capture, es[..|es| - 1]);
      StepKeeps(c, capture, Run(c, capture, es[..|es| - 1]), es[|es| - 1]);
    }
  }

  // ----- progress: no schedule gets stuck, and none goes on for ever

  function TotalLen<P>(qs: seq<seq<P>>): nat {
    if qs == [] then 0 else TotalLen(qs[..|qs| - 1]) + |qs[|qs| - 1]|
  }

  function Count(bs: seq<bool>): nat {
    if bs == [] then 0 else Count(bs[..|bs| - 1]) + (if bs[|bs| - 1] then 0 else 1)
  }

  lemma {:induction false} TotalLenUpdate<P>(qs: seq<seq<P>>, i: nat, q: seq<P>)
    requires i < |qs|
    ensures TotalLen(qs[i := q]) == TotalLen(qs) - |qs[i]| + |q|
    decreases |qs|
  {
    var n := |qs| - 1;
    if i < n {
      TotalLenUpdate(qs[..n], i, q);
      assert qs[i := q][..n] == qs[..n][i := q];
    } else {
      assert qs[i := q][..n] == qs[..n];
    }
  }

  lemma {:induction false} CountUpdate(bs: seq<bool>, i: nat)
    requires i < |bs| && !bs[i]
    ensures Count(bs[i := true]) == Count(bs) - 1
    decreases |bs|
  {
    var n := |bs| - 1;
    if i < n {
      CountUpdate(bs[..n], i);
      assert bs[i := true][..n] == bs[..n][i := true];
    } else {
      assert bs[i := true][..n] == bs[..n];
    }
  }

  function Measure<P, K, R>(s: State<P, K, R>): nat {
    3 * |s.input| + 2 * TotalLen(s.queues) + TotalLen(s.hands) + (if s.closed then 0 else 1) + Count(s.exited)
  }

  /** Every step that does something brings the run closer to its end. */
  lemma StepsDecrease<P(!new), K, R>(c: Config<P, K, R>, capture: seq<P>, s: State<P, K, R>, e: Event<P>)
    requires Inv(c, capture, s) && Step(c, s, e) != s
    ensures Measure(Step(c, s, e)) < Measure(s)
  {
    match e
    case Submit =>
      var w := c.route(s.input[0]);
      TotalLenUpdate(s.queues, w, s.queues[w] + [s.input[0]]);
    case Decode(i) =>
      TotalLenUpdate(s.queues, i, s.queues[i][1..]);
      TotalLenUpdate(s.hands, i, [s.queues[i][0]]);
    case Collect(i, synthetic) =>
      TotalLenUpdate(s.hands, i, []);
    case Close =>
    case Exit(i, synthetic) =>
      if s.exited[i] {
        ExitTwice(c, s, i, synthetic);
        assert false;
      }
      CountUpdate(s.exited, i);
  }

  lemma ExitTwice<P(!new), K, R>(c: Config<P, K, R>, s: State<P, K, R>, i: nat, synthetic: seq<P>)
    requires Sane(c) && Shaped(c, s) && i < c.n && s.exited[i] && Synthetic(c, synthetic)
    ensures Step(c, s, Exit(i, synthetic)) == s
  {
    SyntheticIgnored(c, s.maps[i], synthetic);
    assert s.exited[i := true] == s.exited && s.maps[i := s.maps[i]] == s.maps;
  }

  lemma WorkerCanMove<P(!new), K, R>(c: Config<P, K, R>, s: State<P, K, R>, i: nat) returns (e: Event<P>)
    requires Sane(c) && Shaped(c, s) && i < c.n && (s.hands[i] != [] || s.queues[i] != [])
    ensures Step(c, s, e) != s
  {
    if s.hands[i] != [] {
      e := Collect(i, []);
      assert Step(c, s, Collect(i, [])).hands[i] == [];
    } else {
      e := Decode(i);
      assert Step(c, s, Decode(i)).hands[i] == [s.queues[i][0]];
    }
  }

  lemma IdleWorkerCanExit<P(!new), K, R>(c: Config<P, K, R>, s: State<P, K, R>, i: nat)
    requires Sane(c) && Shaped(c, s) && i < c.n && s.hands[i] == [] && s.queues[i] == [] && s.closed && !s.exited[i]
    ensures Step(c, s, Exit(i, [])) != s
  {
    assert Step(c, s, Exit(i, [])).exited[i];
  }

  lemma ReaderCanMove<P(!new), K, R>(c: Config<P, K, R>, s: State<P, K, R>) returns (e: Event<P>)
    requires Sane(c) && Shaped(c, s) && !s.closed
    requires s.input != [] ==> |s.queues[c.route(s.input[0])]| < c.bound
    ensures Step(c, s, e) != s
  {
    if s.input == [] {
      e := Close;
      assert Step(c, s, Close).closed;
    } else {
      e := Submit;
      assert |Step(c, s, Submit).input| == |s.input| - 1;
    }
  }

  /** An unfinished state always has a step that does something. */
  lemma NeverStuck<P(!new), K, R>(c: Config<P, K, R>, capture: seq<P>, s: State<P, K, R>) returns (e: Event<P>)
    requires Inv(c, capture, s) && !Finished(s)
    ensures Step(c, s, e) != s
  {
    var i :| 0 <= i < |s.exited| && !s.exited[i];
    if s.hands[i] != [] || s.queues[i] != [] {
      e := WorkerCanMove(c, s, i);
    } else if s.closed {
      IdleWorkerCanExit(c, s, i);
      e := Exit(i, []);
    } else if s.input != [] && |s.queues[c.route(s.input[0])]| >= c.bound {
      e := WorkerCanMove(c, s, c.route(s.input[0]));
    } else {
      e := ReaderCanMove(c, s);
    }
  }

  // ----- the result does not depend on the schedule

  /** All taken packets of one flow are routed to one worker. */
  ghost predicate Affinity<P, K, R>(c: Config<P, K, R>, ps: seq<P>) {
    forall i, j ::
      0 <= i < |ps| && 0 <= j < |ps| && c.d.takes(ps[i]) && c.d.takes(ps[j]) && c.d.key(ps[i]) == c.d.key(ps[j])
      ==> c.route(ps[i]) == c.route(ps[j])
  }

  /** In every finished run, every worker holds the sequential decoding of its share. */
  lemma WorkersDecodeTheirShare<P(!new), K, R>(c: Config<P, K, R>, capture: seq<P>, es: seq<Event<P>>, w: nat)
    requires Sane(c) && Finished(Run(c, capture, es)) && w < c.n
    ensures var s := Run(c, capture, es);
            && s.maps[w] == Track(c.d, Routed(c.route, capture, w))
            && Routed(c.route, s.collected, w) == Routed(c.route, capture, w)
  {
    RunKeeps(c, capture, es);
    var s := Run(c, capture, es);
    assert WorkerInv(c, capture, s, w);
    assert s.exited[w];
    assert s.seen[w] + [] + [] == s.seen[w] == Routed(c.route, s.collected, w) + [];
  }

  /** Routing a flow's packets to one worker keeps all of them, in order. */
  lemma {:induction false} FlowStaysTogether<P, K, R>(c: Config<P, K, R>, ps: seq<P>, k: K, w: nat)
    requires forall i :: 0 <= i < |ps| && Has(c.d, ps[i], k) ==> c.route(ps[i]) == w
    ensures PacketsOf(c.d, Routed(c.route, ps, w), k) == PacketsOf(c.d, ps, k)
    decreases |ps|
  {
    if ps != [] {
      var front, p := ps[..|ps| - 1], ps[|ps| - 1];
      FlowStaysTogether(c, front, k, w);
      var r := Routed(c.route, front, w);
      if c.route(p) == w {
        assert (r + [p])[..|r|] == r;
      } else {
        assert r + [] == r;
        assert PacketsOf(c.d, ps, k) == PacketsOf(c.d, front, k);
      }
    }
  }

  /** A worker that no packet of a flow goes to has no entry for it, and conversely. */
  lemma {:induction false} FlowPresence<P, K, R>(c: Config<P, K, R>, ps: seq<P>, k: K, w: nat)
    ensures PacketsOf(c.d, Routed(c.route, ps, w), k) != [] <==>
            exists i :: 0 <= i < |ps| && Has(c.d, ps[i], k) && c.route(ps[i]) == w
    decreases |ps|
  {
    if ps != [] {
      var front, p := ps[..|ps| - 1], ps[|ps| - 1];
      FlowPresence(c, front, k, w);
      var r := Routed(c.route, front, w);
      if c.route(p) == w {
        assert (r + [p])[..|r|] == r;
      } else {
        assert r + [] == r;
      }
      assert forall i :: 0 <= i < |front| ==> front[i] == ps[i];
      if i :| 0 <= i < |ps| && Has(c.d, ps[i], k) && c.route(ps[i]) == w {
        assert i < |front| ==> front[i] == ps[i];
      }
    }
  }

  /** All entries of all workers, as Flush gathers them. */
  ghost function Union<K, R>(maps: seq<map<K, R>>): map<K, R> {
    if maps == [] then map[] else Union(maps[..|maps| - 1]) + maps[|maps| - 1]
  }

  ghost predicate Disjoint<K, R>(maps: seq<map<K, R>>) {
    forall i, j :: 0 <= i < j < |maps| ==> maps[i].Keys !! maps[j].Keys
  }

  /** What one worker has for one flow, in a finished run. */
  lemma EntryOf<P(!new), K, R>(c: Config<P, K, R>, capture: seq<P>, es: seq<Event<P>>, w: nat, k: K)
    requires Sane(c) && Finished(Run(c, capture, es)) && w < c.n
    ensures var m := Run(c, capture, es).maps[w];
            && (k in m <==> exists i :: 0 <= i < |capture| && Has(c.d, capture[i], k) && c.route(capture[i]) == w)
            && (Affinity(c, capture) && k in m ==>
                  k in Track(c.d, capture) && m[k] == Track(c.d, capture)[k])
  {
    var share := Routed(c.route, capture, w);
    WorkersDecodeTheirShare(c, capture, es, w);
    TrackByFlow(c.d, share, k);
    TrackByFlow(c.d, capture, k);
    FlowPresence(c, capture, k, w);
    if Affinity(c, capture) && PacketsOf(c.d, share, k) != [] {
      FlowStaysTogether(c, capture, k, w);
    }
  }

  lemma {:induction false} UnionEntry<K, R>(maps: seq<map<K, R>>, k: K)
    ensures k in Union(maps) <==> exists w :: 0 <= w < |maps| && k in maps[w]
    ensures k in Union(maps) ==> exists w :: 0 <= w < |maps| && k in maps[w] && Union(maps)[k] == maps[w][k]
    decreases |maps|
  {
    if maps != [] {
      var front, n := maps[..|maps| - 1], |maps| - 1;
      UnionEntry(front, k);
      assert forall w :: 0 <= w < n ==> front[w] == maps[w];
      if k in maps[n] {
        assert Union(maps)[k] == maps[n][k];
      } else if k in Union(front) {
        var w :| 0 <= w < n && k in front[w] && Union(front)[k] == front[w][k];
        assert k in maps[w] && Union(maps)[k] == maps[w][k];
      }
    }
  }

  lemma TakenHasEntry<P, K, R>(d: Decoder<P, K, R>, ps: seq<P>, k: K)
    ensures PacketsOf(d, ps, k) != [] <==> exists i :: 0 <= i < |ps| && Has(d, ps[i], k)
    decreases |ps|
  {
    if ps != [] {
      var front := ps[..|ps| - 1];
      TakenHasEntry(d, front, k);
      if i :| 0 <= i < |ps| && Has(d, ps[i], k) {
        assert i < |front| ==> front[i] == ps[i];
      }
    }
  }

  /** Main pool theorem: for every worker count, queue bound and schedule, if all packets
      of a flow share a route then the finished workers have disjoint keys and their
      union is exactly one sequential run over the capture. */
  lemma PoolIsSequential<P(!new), K(!new), R>(c: Config<P, K, R>, capture: seq<P>, es: seq<Event<P>>)
    requires Sane(c) && Finished(Run(c, capture, es)) && Affinity(c, capture)
    ensures Disjoint(Run(c, capture, es).maps)
    ensures Union(Run(c, capture, es).maps) == Track(c.d, capture)
  {
    var maps, whole := Run(c, capture, es).maps, Track(c.d, capture);
    DisjointExactly(c, capture, es);
    forall k
      ensures k in Union(maps) <==> k in whole
      ensures k in Union(maps) ==> Union(maps)[k] == whole[k]
    {
      UnionEntry(maps, k);
      TrackByFlow(c.d, capture, k);
      TakenHasEntry(c.d, capture, k);
      if k in whole {
        var i :| 0 <= i < |capture| && Has(c.d, capture[i], k);
        EntryOf(c, capture, es, c.route(capture[i]), k);
        assert k in maps[c.route(capture[i])];
      }
      if k in Union(maps) {
        var w :| 0 <= w < |maps| && k in maps[w] && Union(maps)[k] == maps[w][k];
        EntryOf(c, capture, es, w, k);
      }
    }
  }

  /** The condition is exact: the workers' keys are disjoint if and only if no two taken
      packets of one flow have different routes. */
  lemma DisjointExactly<P(!new), K(!new), R>(c: Config<P, K, R>, capture: seq<P>, es: seq<Event<P>>)
    requires Sane(c) && Finished(Run(c, capture, es))
    ensures Disjoint(Run(c, capture, es).maps) <==> Affinity(c, capture)
  {
    var maps := Run(c, capture, es).maps;
    forall w, k | 0 <= w < c.n
      ensures k in maps[w] <==> exists i :: 0 <= i < |capture| && Has(c.d, capture[i], k) && c.route(capture[i]) == w
    {
      EntryOf(c, capture, es, w, k);
    }
    if Affinity(c, capture) {
      forall v, w | 0 <= v < w < |maps|
        ensures maps[v].Keys !! maps[w].Keys
      {
        forall k | k in maps[v].Keys
          ensures k !in maps[w].Keys
        {
          var i :| 0 <= i < |capture| && Has(c.d, capture[i], k) && c.route(capture[i]) == v;
          assert forall j :: 0 <= j < |capture| && Has(c.d, capture[j], k) ==> c.route(capture[j]) == v;
        }
      }
    } else {
      var i, j :| 0 <= i < |capture| && 0 <= j < |capture| && c.d.takes(capture[i]) && c.d.takes(capture[j])
        && c.d.key(capture[i]) == c.d.key(capture[j]) && c.route(capture[i]) != c.route(capture[j]);
      var k := c.d.key(capture[i]);
      assert Has(c.d, capture[i], k) && Has(c.d, capture[j], k);
      assert k in maps[c.route(capture[i])].Keys && k in maps[c.route(capture[j])].Keys;
    }
  }

  lemma {:induction false} ShareAtMost<P, K, R>(c: Config<P, K, R>, ps: seq<P>, k: K, w: nat)
    ensures |PacketsOf(c.d, Routed(c.route, ps, w), k)| <= |PacketsOf(c.d, ps, k)|
    ensures (exists i :: 0 <= i < |ps| && Has(c.d, ps[i], k) && c.route(ps[i]) != w)
            ==> |PacketsOf(c.d, Routed(c.route, ps, w), k)| < |PacketsOf(c.d, ps, k)|
    decreases |ps|
  {
    if ps != [] {
      var front, p := ps[..|ps| - 1], ps[|ps| - 1];
      ShareAtMost(c, front, k, w);
      var r := Routed(c.route, front, w);
      if c.route(p) == w {
        assert (r + [p])[..|r|] == r;
      } else {
        assert r + [] == r;
      }
      if i :| 0 <= i < |ps| && Has(c.d, ps[i], k) && c.route(ps[i]) != w {
        assert i < |front| ==> front[i] == ps[i];
      }
    }
  }

  /** Without affinity, no worker has the sequential record of a split flow. */
  lemma SplitFlowDiffers<P(!new), K, R>(
    c: Config<P, K, R>, capture: seq<P>, es: seq<Event<P>>, size: R -> nat, w: nat, k: K)
    requires Sane(c) && Finished(Run(c, capture, es)) && w < c.n && k in Run(c, capture, es).maps[w]
    requires forall qs: seq<P> :: qs != [] ==> size(FoldFlow(c.d, qs)) == |qs|
    requires exists i :: 0 <= i < |capture| && Has(c.d, capture[i], k) && c.route(capture[i]) != w
    ensures k in Track(c.d, capture) && Run(c, capture, es).maps[w][k] != Track(c.d, capture)[k]
  {
    var share := Routed(c.route, capture, w);
    WorkersDecodeTheirShare(c, capture, es, w);
    TrackByFlow(c.d, share, k);
    TrackByFlow(c.d, capture, k);
    ShareAtMost(c, capture, k, w);
    assert size(FoldFlow(c.d, PacketsOf(c.d, share, k))) == |PacketsOf(c.d, share, k)|;
    assert size(FoldFlow(c.d, PacketsOf(c.d, capture, k))) == |PacketsOf(c.d, capture, k)|;
  }

  /** For a decoder whose records count their packets, affinity is also necessary: the
      workers' union is the sequential run if and only if no flow is split. */
  lemma SequentialExactly<P(!new), K(!new), R>(c: Config<P, K, R>, capture: seq<P>, es: seq<Event<P>>, size: R -> nat)
    requires Sane(c) && Finished(Run(c, capture, es))
    requires forall qs: seq<P> :: qs != [] ==> size(FoldFlow(c.d, qs)) == |qs|
    ensures Union(Run(c, capture, es).maps) == Track(c.d, capture) <==> Affinity(c, capture)
  {
    var maps := Run(c, capture, es).maps;
    if Affinity(c, capture) {
      PoolIsSequential(c, capture, es);
    } else {
      var i, j :| 0 <= i < |capture| && 0 <= j < |capture| && c.d.takes(capture[i]) && c.d.takes(capture[j])
        && c.d.key(capture[i]) == c.d.key(capture[j]) && c.route(capture[i]) != c.route(capture[j]);
      var k := c.d.key(capture[i]);
      assert Has(c.d, capture[i], k) && Has(c.d, capture[j], k);
      EntryOf(c, capture, es, c.route(capture[i]), k);
      UnionEntry(maps, k);
      var w :| 0 <= w < |maps| && k in maps[w] && Union(maps)[k] == maps[w][k];
      SplitFlowDiffers(c, capture, es, size, w, k);
    }
  }

  // ----- the packet collector

  lemma {:induction false} RoutedCount<P>(route: P -> nat, ps: seq<P>, x: P)
    ensures multiset(Routed(route, ps, route(x)))[x] == multiset(ps)[x]
    decreases |ps|
  {
    if ps != [] {
      var front, p := ps[..|ps| - 1], ps[|ps| - 1];
      RoutedCount(route, front, x);
      assert ps == front + [p];
    }
  }

  /** Main collector theorem: a finished run collected every submitted packet exactly once,
      and each flow's packets in capture order. */
  lemma CollectorComplete<P(!new), K, R>(c: Config<P, K, R>, capture: seq<P>, es: seq<Event<P>>, k: K)
    requires Sane(c) && Finished(Run(c, capture, es))
    ensures multiset(Run(c, capture, es).collected) == multiset(capture)
    ensures Affinity(c, capture) ==> PacketsOf(c.d, Run(c, capture, es).collected, k) == PacketsOf(c.d, capture, k)
  {
    var got := Run(c, capture, es).collected;
    forall x
      ensures multiset(got)[x] == multiset(capture)[x]
    {
      WorkersDecodeTheirShare(c, capture, es, c.route(x));
      RoutedCount(c.route, got, x);
      RoutedCount(c.route, capture, x);
    }
    if Affinity(c, capture) {
      TakenHasEntry(c.d, capture, k);
      TakenHasEntry(c.d, got, k);
      assert forall p :: p in got <==> p in multiset(got);
      if i :| 0 <= i < |capture| && Has(c.d, capture[i], k) {
        var w := c.route(capture[i]);
        assert forall j :: 0 <= j < |got| && Has(c.d, got[j], k) ==> got[j] in multiset(capture);
        FlowStaysTogether(c, capture, k, w);
        FlowStaysTogether(c, got, k, w);
        WorkersDecodeTheirShare(c, capture, es, w);
      } else {
        assert forall j :: 0 <= j < |got| ==> got[j] in multiset(capture);
      }
    }
  }
}
