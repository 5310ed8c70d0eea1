/** A capture session's packet buffer, the periodic flusher that empties it into the
    database, and the final drain after the capture stops. */
module SessionBuffer {
  import opened Bytes

  /** At most this many periodic writes run at once. */
  const WRITE_SLOTS := 2

  // ----- the session object

  class Session<P> {
    const maxBuffered: nat
    var packets: seq<P>
    var running: bool
    var stopClosed: bool

    /** The stop channel is closed exactly when the session is no longer running. */
    ghost predicate Valid()
      reads this
    {
      |packets| <= maxBuffered && stopClosed == !running
    }

    constructor (maxBuffered: nat)
      ensures Valid() && this.maxBuffered == maxBuffered && packets == [] && running
    {
      this.maxBuffered := maxBuffered;
      packets := [];
      running, stopClosed := true, false;
    }

    method BufferPacket(p: P)
      requires Valid()
      modifies `packets
      ensures Valid()
      ensures |old(packets)| < maxBuffered ==> packets == old(packets) + [p]
      ensures |old(packets)| >= maxBuffered ==> packets == old(packets)
    {
      if |packets| < maxBuffered {
        packets := packets + [p];
      }
    }

    method DrainPackets() returns (out: seq<P>)
      requires Valid()
      modifies `packets
      ensures Valid() && out == old(packets) && packets == []
    {
      out := packets;
      packets := [];
    }

    /** Closing a closed channel panics; `closes` says whether this call closed it. */
    method Stop() returns (closes: bool)
      requires Valid()
      modifies `running, `stopClosed
      ensures Valid() && !running
      ensures closes == old(running) && (closes ==> !old(stopClosed))
    {
      closes := false;
      if running {
        running := false;
        stopClosed := true;
        closes := true;
      }
    }
  }

  // ----- capture, flusher, writers and final drain, interleaved

  datatype Flusher<P> = Waiting | Holding(batch: seq<P>) | Requeueing(left: seq<P>) | Gone

  /** analyzeAndStore: not there yet, storing what it drew, finished, or returned early
      because flows or calls could not be stored. */
  datatype Final<P> = NotYet | Storing(batch: seq<P>) | Done | GivenUp

  /** `captured`, `stored`, `dropped` and `failed` are history: packets put in the buffer or
      dropped at its cap, and batches whose write went through or was rolled back. */
  datatype State<P> = State(
    buffer: seq<P>, flusher: Flusher<P>, inflight: seq<seq<P>>, final: Final<P>, stopped: bool,
    captured: seq<P>, stored: seq<P>, dropped: seq<P>, failed: seq<P>)

  datatype Event<P> =
    | Capture(p: P) | Tick | Acquire | Requeue | WriteDone(j: nat, ok: bool) | StopSession | Leave
    | FinalDrain | FinalDone(ok: bool) | GiveUp

  /** BufferPacket on the shared state. */
  function PutBack<P>(max: nat, s: State<P>, p: P): State<P> {
    if |s.buffer| < max then s.(buffer := s.buffer + [p]) else s.(dropped := s.dropped + [p])
  }

  /** A write of `batch` returned; an error is only logged. */
  function Finish<P>(s: State<P>, batch: seq<P>, ok: bool): State<P> {
    if ok then s.(stored := s.stored + batch) else s.(failed := s.failed + batch)
  }

  /** One step; a step that is not enabled changes nothing. */
  function Step<P>(max: nat, s: State<P>, e: Event<P>): State<P> {
    match e
    case Capture(p) => PutBack(max, s.(captured := s.captured + [p]), p)
    case Tick =>
      if s.flusher.Waiting? && s.buffer != [] then s.(flusher := Holding(s.buffer), buffer := []) else s
    case Acquire =>
      if !s.flusher.Holding? then s
      else if |s.inflight| < WRITE_SLOTS then s.(flusher := Waiting, inflight := s.inflight + [s.flusher.batch])
      else s.(flusher := Requeueing(s.flusher.batch))
    case Requeue =>
      if !s.flusher.Requeueing? then s
      else if s.flusher.left == [] then s.(flusher := Waiting)
      else PutBack(max, s.(flusher := Requeueing(s.flusher.left[1..])), s.flusher.left[0])
    case WriteDone(j, ok) =>
      if j < |s.inflight| then
        Finish(s.(inflight := s.inflight[..j] + s.inflight[j + 1..]), s.inflight[j], ok)
      else s
    case StopSession => s.(stopped := true)
    case Leave => if s.flusher.Waiting? && s.stopped then s.(flusher := Gone) else s
    case FinalDrain =>
      if s.stopped && s.final.NotYet? then
        s.(buffer := [], final := if s.buffer == [] then Done else Storing(s.buffer))
      else s
    case FinalDone(ok) => if s.final.Storing? then Finish(s.(final := Done), s.final.batch, ok) else s
    case GiveUp => if s.stopped && s.final.NotYet? then s.(final := GivenUp) else s
  }

  function Start<P>(): State<P> { State([], Waiting, [], NotYet, false, [], [], [], []) }

  function Run<P>(max: nat, s: State<P>, es: seq<Event<P>>): State<P> {
    if es == [] then s else Step(max, Run(max, s, es[..|es| - 1]), es[|es| - 1])
  }

  /** The packets in the flusher's hand. */
  function Hand<P>(f: Flusher<P>): seq<P> {
    match f
    case Holding(b) => b
    case Requeueing(l) => l
    case Waiting => []
    case Gone => []
  }

  function FinalHand<P>(f: Final<P>): seq<P> { if f.Storing? then f.batch else [] }

  /** Everywhere a captured packet can be. */
  ghost function Everywhere<P>(s: State<P>): multiset<P> {
    (multiset(s.buffer) + multiset(s.dropped)) + multiset(Hand(s.flusher)) + (multiset(FinalHand(s.final)) + Written(s))
  }

  /** Handed to a periodic write, stored, or lost in a failed write. */
  ghost function Written<P>(s: State<P>): multiset<P> {
    multiset(Concat(s.inflight)) + (multiset(s.stored) + multiset(s.failed))
  }

  ghost predicate Inv<P>(max: nat, s: State<P>) {
    && Everywhere(s) == multiset(s.captured)
    && |s.buffer| <= max && |s.inflight| <= 2 && |Hand(s.flusher)| <= max
  }

  lemma PutBackKeeps<P>(max: nat, s: State<P>, p: P)
    ensures Everywhere(PutBack(max, s, p)) == Everywhere(s) + multiset{p}
    ensures |s.buffer| <= max ==> |PutBack(max, s, p).buffer| <= max
    ensures PutBack(max, s, p) == s.(buffer := PutBack(max, s, p).buffer, dropped := PutBack(max, s, p).dropped)
  {
  }

  lemma {:induction false} ConcatSplit<P>(parts: seq<seq<P>>, j: nat)
    requires j < |parts|
    ensures multiset(Concat(parts)) == multiset(Concat(parts[..j] + parts[j + 1..])) + multiset(parts[j])
  {
    ConcatAppend(parts[..j], parts[j..]);
    assert parts == parts[..j] + parts[j..];
    assert parts[j..][1..] == parts[j + 1..];
    assert Concat(parts[j..]) == parts[j] + Concat(parts[j + 1..]);
    ConcatAppend(parts[..j], parts[j + 1..]);
  }

  lemma RequeueKeeps<P>(max: nat, s: State<P>)
    requires Inv(max, s) && s.flusher.Requeueing? && s.flusher.left != []
    ensures Inv(max, Step(max, s, Requeue))
  {
    var left := s.flusher.left;
    HandShrinks(s, s.(flusher := Requeueing(left[1..])));
    PutBackKeeps(max, s.(flusher := Requeueing(left[1..])), left[0]);
  }

  lemma HandShrinks<P>(s: State<P>, t: State<P>)
    requires s.flusher.Requeueing? && s.flusher.left != []
    requires t == s.(flusher := Requeueing(s.flusher.left[1..]))
    ensures Everywhere(t) + multiset{s.flusher.left[0]} == Everywhere(s)
  {
    var left := s.flusher.left;
    assert left == [left[0]] + left[1..];
    assert multiset(left) == multiset{left[0]} + multiset(left[1..]);
  }

  /** Packets change hands between buffer, flusher and final write. */
  lemma TickKeeps<P>(max: nat, s: State<P>)
    requires Inv(max, s) && s.flusher.Waiting? && s.buffer != []
    ensures Inv(max, Step(max, s, Tick))
  {
    var t := Step(max, s, Tick);
    assert multiset(t.buffer) == multiset(Hand(s.flusher)) == multiset{};
    assert Written(t) == Written(s);
  }

  lemma FinalDrainKeeps<P>(max: nat, s: State<P>)
    requires Inv(max, s) && s.stopped && s.final.NotYet?
    ensures Inv(max, Step(max, s, FinalDrain))
  {
    var t := Step(max, s, FinalDrain);
    assert multiset(t.buffer) == multiset(FinalHand(s.final)) == multiset{};
    assert multiset(FinalHand(t.final)) == multiset(s.buffer);
    assert Written(t) == Written(s);
  }

  lemma FinalDoneKeeps<P>(max: nat, s: State<P>, ok: bool)
    requires Inv(max, s) && s.final.Storing?
    ensures Inv(max, Step(max, s, FinalDone(ok)))
  {
    var t := Step(max, s, FinalDone(ok));
    MoveToFinished(s.(final := Done), s.final.batch, ok);
    assert multiset(FinalHand(t.final)) == multiset{};
  }

  lemma CaptureKeeps<P>(max: nat, s: State<P>, p: P)
    requires Inv(max, s)
    ensures Inv(max, Step(max, s, Capture(p)))
  {
    var t := s.(captured := s.captured + [p]);
    assert Everywhere(t) == Everywhere(s);
    PutBackKeeps(max, t, p);
  }

  lemma AcquireKeeps<P>(max: nat, s: State<P>)
    requires Inv(max, s) && s.flusher.Holding? && |s.inflight| < WRITE_SLOTS
    ensures Inv(max, Step(max, s, Acquire))
  {
    ConcatAppend(s.inflight, [s.flusher.batch]);
    ConcatSingle(s.flusher.batch);
    assert Everywhere(Step(max, s, Acquire)) == Everywhere(s);
  }

  lemma MoveToFinished<P>(s: State<P>, batch: seq<P>, ok: bool)
    ensures Written(Finish(s, batch, ok)) == Written(s) + multiset(batch)
  {
    assert multiset(s.stored + batch) == multiset(s.stored) + multiset(batch);
    assert multiset(s.failed + batch) == multiset(s.failed) + multiset(batch);
  }

  lemma WriteDoneMoves<P>(max: nat, s: State<P>, j: nat, ok: bool)
    requires j < |s.inflight|
    ensures Written(Step(max, s, WriteDone(j, ok))) == Written(s)
  {
    ConcatSplit(s.inflight, j);
    MoveToFinished(s.(inflight := s.inflight[..j] + s.inflight[j + 1..]), s.inflight[j], ok);
  }

  lemma WriteDoneKeeps<P>(max: nat, s: State<P>, j: nat, ok: bool)
    requires Inv(max, s) && j < |s.inflight|
    ensures Inv(max, Step(max, s, WriteDone(j, ok)))
  {
    WriteDoneMoves(max, s, j, ok);
  }

  /** Steps that only change what happens next. */
  lemma QuietKeeps<P>(max: nat, s: State<P>, t: State<P>)
    requires Inv(max, s) && Hand(t.flusher) == Hand(s.flusher) && FinalHand(t.final) == FinalHand(s.final)
    requires t == s.(flusher := t.flusher, stopped := t.stopped, final := t.final)
    ensures Inv(max, t)
  {
  }

  lemma StepKeeps<P>(max: nat, s: State<P>, e: Event<P>)
    requires Inv(max, s)
    ensures Inv(max, Step(max, s, e))
  {
    var t := Step(max, s, e);
    if t != s {
      match e
      case Capture(p) => CaptureKeeps(max, s, p);
      case Acquire =>
        if |s.inflight| < WRITE_SLOTS { AcquireKeeps(max, s); } else { QuietKeeps(max, s, t); }
      case Requeue =>
        if s.flusher.left != [] { RequeueKeeps(max, s); } else { QuietKeeps(max, s, t); }
      case WriteDone(j, ok) => WriteDoneKeeps(max, s, j, ok);
      case Tick => TickKeeps(max, s);
      case FinalDrain => FinalDrainKeeps(max, s);
      case FinalDone(ok) => FinalDoneKeeps(max, s, ok);
      case GiveUp => QuietKeeps(max, s, t);
      case StopSession => QuietKeeps(max, s, t);
      case Leave => QuietKeeps(max, s, t);
    }
  }

  /** Main conservation theorem: in every interleaving of capture, flush tick, write
      completion and final drain, each captured packet is in exactly one of buffer,
      flusher's hand, in-flight write, final write, stored, lost in a failed write, or
      dropped at the cap;
      the buffer never exceeds its cap and at most two periodic writes are in flight. */
  lemma {:induction false} BufferConserves<P>(max: nat, es: seq<Event<P>>)
    ensures Inv(max, Run(max, Start(), es))
    decreases |es|
  {
    if es == [] {
      assert Concat<P>([]) == [];
    } else {
      BufferConserves(max, es[..|es| - 1]);
      StepKeeps(max, Run(max, Start(), es[..|es| - 1]), es[|es| - 1]);
    }
  }

  // ----- what is dropped

  /** The packet a step tries to put in the buffer, if any. */
  function Attempt<P>(s: State<P>, e: Event<P>): seq<P> {
    match e
    case Capture(p) => [p]
    case Requeue => if s.flusher.Requeueing? && s.flusher.left != [] then [s.flusher.left[0]] else []
    case _ => []
  }

  /** Below the cap an attempt lands at the end of the buffer and drops nothing; at the cap
      it leaves the buffer alone and is dropped. Other steps drop nothing. */
  lemma AttemptExactly<P>(max: nat, s: State<P>, e: Event<P>)
    ensures
      var t, p := Step(max, s, e), Attempt(s, e);
      && (p != [] && |s.buffer| < max ==> t.buffer == s.buffer + p && t.dropped == s.dropped)
      && (p != [] && |s.buffer| >= max ==> t.buffer == s.buffer && t.dropped == s.dropped + p)
      && (p == [] ==> t.dropped == s.dropped)
  {
  }

  /** The packets of a run that found the buffer full, in order. */
  function FoundFull<P>(max: nat, es: seq<Event<P>>): seq<P> {
    if es == [] then []
    else
      var front := es[..|es| - 1];
      var s := Run(max, Start(), front);
      FoundFull(max, front) + (if |s.buffer| == max then Attempt(s, es[|es| - 1]) else [])
  }

  /** Main drop theorem: dropped are exactly the packets that found the buffer at its cap. */
  lemma {:induction false} DroppedExactly<P>(max: nat, es: seq<Event<P>>)
    ensures Run(max, Start(), es).dropped == FoundFull(max, es)
    decreases |es|
  {
    if es != [] {
      var front := es[..|es| - 1];
      DroppedExactly(max, front);
      BufferConserves(max, front);
      AttemptExactly(max, Run(max, Start(), front), es[|es| - 1]);
    }
  }

  // ----- what is stored in the end

  /** Nothing is left to happen except further captures. */
  predicate Settled<P>(s: State<P>) { s.flusher.Gone? && s.inflight == [] && (s.final.Done? || s.final.GivenUp?) }

  /** The state in which event k of a run happens. */
  function Before<P>(max: nat, es: seq<Event<P>>, k: nat): State<P>
    requires k <= |es|
  {
    Run(max, Start(), es[..k])
  }

  lemma BeforeFront<P>(max: nat, es: seq<Event<P>>, k: nat)
    requires es != [] && k < |es|
    ensures Before(max, es, k) == Before(max, es[..|es| - 1], k)
  {
    assert es[..|es| - 1][..k] == es[..k];
  }

  lemma BeforeNext<P>(max: nat, es: seq<Event<P>>, k: nat)
    requires k < |es|
    ensures Before(max, es, k + 1) == Step(max, Before(max, es, k), es[k])
  {
    assert es[..k + 1][..k] == es[..k];
  }

  /** The step hands all buffered packets to a writer. */
  predicate Draws<P>(s: State<P>, e: Event<P>) {
    (e.Tick? && s.flusher.Waiting?) || (e.FinalDrain? && s.stopped && s.final.NotYet?)
  }

  /** The step puts a packet in the buffer. */
  predicate Puts<P>(max: nat, s: State<P>, e: Event<P>) {
    |s.buffer| < max && (e.Capture? || (e.Requeue? && s.flusher.Requeueing? && s.flusher.left != []))
  }

  lemma BufferChanges<P>(max: nat, s: State<P>, e: Event<P>)
    ensures Draws(s, e) ==> Step(max, s, e).buffer == []
    ensures Puts(max, s, e) ==> Step(max, s, e).buffer != []
    ensures !Draws(s, e) && !Puts(max, s, e) ==> Step(max, s, e).buffer == s.buffer
  {
  }

  ghost predicate DrawsAt<P>(max: nat, es: seq<Event<P>>, k: nat) { k < |es| && Draws(Before(max, es, k), es[k]) }

  /** Event i puts a packet in the buffer, and nothing draws from it afterwards. */
  ghost predicate Strands<P>(max: nat, es: seq<Event<P>>, i: nat) {
    && i < |es| && Puts(max, Before(max, es, i), es[i])
    && forall k :: i < k < |es| ==> !DrawsAt(max, es, k)
  }

  lemma StrandsFront<P>(max: nat, es: seq<Event<P>>, i: nat)
    requires es != [] && i < |es| - 1
    ensures Strands(max, es, i) <==> Strands(max, es[..|es| - 1], i) && !DrawsAt(max, es, |es| - 1)
  {
    var front := es[..|es| - 1];
    BeforeFront(max, es, i);
    forall k | i < k < |es| - 1
      ensures DrawsAt(max, es, k) <==> DrawsAt(max, front, k)
    {
      BeforeFront(max, es, k);
    }
    if Strands(max, front, i) && !DrawsAt(max, es, |es| - 1) {
      assert forall k :: i < k < |es| ==> !DrawsAt(max, es, k);
    }
  }

  lemma StrandsNext<P>(max: nat, es: seq<Event<P>>)
    requires es != []
    ensures
      var n, front := |es| - 1, es[..|es| - 1];
      (exists i :: Strands(max, es, i))
      <==> Puts(max, Before(max, es, n), es[n]) || (!DrawsAt(max, es, n) && exists i :: Strands(max, front, i))
  {
    var n, front := |es| - 1, es[..|es| - 1];
    assert Strands(max, es, n) <==> Puts(max, Before(max, es, n), es[n]);
    forall i | 0 <= i < n
      ensures Strands(max, es, i) <==> Strands(max, front, i) && !DrawsAt(max, es, n)
    {
      StrandsFront(max, es, i);
    }
    if i :| Strands(max, front, i) {
      assert DrawsAt(max, es, n) || Strands(max, es, i);
    }
  }

  /** The buffer holds something exactly when some put has no draw after it. */
  lemma {:induction false} BufferExactly<P>(max: nat, es: seq<Event<P>>)
    ensures Run(max, Start(), es).buffer != [] <==> exists i :: Strands(max, es, i)
    decreases |es|
  {
    if es != [] {
      BufferExactly(max, es[..|es| - 1]);
      BufferChanges(max, Before(max, es, |es| - 1), es[|es| - 1]);
      StrandsNext(max, es);
    }
  }

  // ----- failed writes

  /** No batch on its way to the database is empty. */
  ghost predicate Filled<P>(s: State<P>) {
    && (forall j :: 0 <= j < |s.inflight| ==> s.inflight[j] != [])
    && (s.flusher.Holding? ==> s.flusher.batch != []) && (s.final.Storing? ==> s.final.batch != [])
  }

  lemma FilledKeeps<P>(max: nat, s: State<P>, e: Event<P>)
    requires Filled(s)
    ensures Filled(Step(max, s, e))
  {
  }

  lemma {:induction false} RunFilled<P>(max: nat, es: seq<Event<P>>)
    ensures Filled(Run(max, Start(), es))
    decreases |es|
  {
    if es != [] {
      RunFilled(max, es[..|es| - 1]);
      FilledKeeps(max, Run(max, Start(), es[..|es| - 1]), es[|es| - 1]);
    }
  }

  /** The step is a write that fails. */
  predicate Fails<P>(s: State<P>, e: Event<P>) {
    || (e.WriteDone? && !e.ok && e.j < |s.inflight|)
    || (e.FinalDone? && !e.ok && s.final.Storing?)
  }

  ghost predicate FailsAt<P>(max: nat, es: seq<Event<P>>, k: nat) { k < |es| && Fails(Before(max, es, k), es[k]) }

  lemma FailedChanges<P>(max: nat, s: State<P>, e: Event<P>)
    requires Filled(s)
    ensures Fails(s, e) ==> Step(max, s, e).failed != []
    ensures !Fails(s, e) ==> Step(max, s, e).failed == s.failed
  {
  }

  lemma {:induction false} FailedExactly<P>(max: nat, es: seq<Event<P>>)
    ensures Run(max, Start(), es).failed != [] <==> exists k :: FailsAt(max, es, k)
    decreases |es|
  {
    if es != [] {
      var n := |es| - 1;
      var front := es[..n];
      FailedExactly(max, front);
      RunFilled(max, front);
      FailedChanges(max, Before(max, es, n), es[n]);
      forall k | 0 <= k < n
        ensures FailsAt(max, es, k) <==> FailsAt(max, front, k)
      {
        BeforeFront(max, es, k);
      }
      assert Fails(Before(max, es, n), es[n]) <==> FailsAt(max, es, n);
      if k :| FailsAt(max, front, k) {
        assert FailsAt(max, es, k);
      }
    }
  }

  /** Main storage theorem: once a run has settled, everything captured and not dropped is
      stored if and only if every packet put in the buffer was drawn from it later and no
      write failed. */
  lemma StoredExactly<P>(max: nat, es: seq<Event<P>>)
    requires Settled(Run(max, Start(), es))
    ensures AllStored(Run(max, Start(), es)) <==>
            !(exists i :: Strands(max, es, i)) && !(exists k :: FailsAt(max, es, k))
  {
    BufferExactly(max, es);
    FailedExactly(max, es);
    BufferConserves(max, es);
    LeftoversExactly(max, Run(max, Start(), es));
  }

  /** Everything captured is in the database, except what was dropped at the cap. */
  ghost predicate AllStored<P>(t: State<P>) { multiset(t.captured) == multiset(t.stored) + multiset(t.dropped) }

  lemma LeftoversExactly<P>(max: nat, t: State<P>)
    requires Settled(t) && Inv(max, t)
    ensures AllStored(t) <==> t.buffer == [] && t.failed == []
  {
    assert Concat(t.inflight) == [];
    assert multiset(t.captured) == (multiset(t.buffer) + multiset(t.failed)) + (multiset(t.stored) + multiset(t.dropped));
    if t.buffer != [] { assert t.buffer[0] in multiset(t.buffer); }
    if t.failed != [] { assert t.failed[0] in multiset(t.failed); }
  }

  /** Event d is the final drain of the run, and nothing is captured after it. */
  ghost predicate LastDrain<P>(max: nat, es: seq<Event<P>>, d: nat) {
    && d < |es| && es[d].FinalDrain? && DrawsAt(max, es, d)
    && forall k :: d < k < |es| ==> !es[k].Capture?
  }

  /** Every settled run that did not give up has had its final drain. */
  lemma {:induction false} FinalDrainHappened<P>(max: nat, es: seq<Event<P>>) returns (d: nat)
    requires Run(max, Start(), es).final.Storing? || Run(max, Start(), es).final.Done?
    ensures d < |es| && es[d].FinalDrain? && DrawsAt(max, es, d)
    decreases |es|
  {
    var n := |es| - 1;
    if Before(max, es, n).final.NotYet? {
      d := n;
    } else {
      d := FinalDrainHappened(max, es[..n]);
      BeforeFront(max, es, d);
    }
  }

  /** Event i, after the final drain, puts a packet back that no later tick draws. */
  ghost predicate RequeuedForGood<P>(max: nat, es: seq<Event<P>>, d: nat, i: nat) {
    && d < i < |es| && es[i].Requeue?
    && (var s := Before(max, es, i); s.flusher.Requeueing? && s.flusher.left != [] && |s.buffer| < max)
    && forall k :: i < k < |es| ==> !DrawsAt(max, es, k)
  }

  /** With nothing captured after the final drain, only a packet the flusher puts back
      after it can be stranded. */
  lemma StrandedIsRequeued<P>(max: nat, es: seq<Event<P>>, d: nat, i: nat)
    requires LastDrain(max, es, d)
    ensures Strands(max, es, i) <==> RequeuedForGood(max, es, d, i)
  {
    assert Strands(max, es, i) && i < d ==> !DrawsAt(max, es, d);
  }

  /** So everything not dropped is stored if and only if the flusher puts nothing back
      after the final drain that it does not draw again, and no write fails. */
  lemma StoredUnlessRequeued<P>(max: nat, es: seq<Event<P>>, d: nat)
    requires LastDrain(max, es, d) && Settled(Run(max, Start(), es))
    ensures AllStored(Run(max, Start(), es)) <==>
            !(exists i :: RequeuedForGood(max, es, d, i)) && !(exists k :: FailsAt(max, es, k))
  {
    StoredExactly(max, es);
    forall i: nat
      ensures Strands(max, es, i) <==> RequeuedForGood(max, es, d, i)
    {
      StrandedIsRequeued(max, es, d, i);
    }
  }

  /** Some event finds both write slots busy. */
  predicate FindsSlotsBusy<P>(s: State<P>, e: Event<P>) {
    e.Acquire? && s.flusher.Holding? && |s.inflight| == 2
  }

  ghost predicate SlotsFreeFrom<P>(max: nat, es: seq<Event<P>>, d: nat) {
    forall j :: d <= j < |es| ==> !FindsSlotsBusy(Before(max, es, j), es[j])
  }

  lemma OnlyBusySlotsRequeue<P>(max: nat, s: State<P>, e: Event<P>)
    requires |s.inflight| <= 2 && !s.flusher.Requeueing? && !FindsSlotsBusy(s, e)
    ensures !Step(max, s, e).flusher.Requeueing?
  {
  }

  lemma AtMostTwoWrites<P>(max: nat, es: seq<Event<P>>)
    ensures |Run(max, Start(), es).inflight| <= 2
  {
    BufferConserves(max, es);
  }

  lemma {:induction false} NeverRequeueing<P>(max: nat, es: seq<Event<P>>, d: nat, k: nat)
    requires d <= k <= |es| && !Before(max, es, d).flusher.Requeueing? && SlotsFreeFrom(max, es, d)
    ensures !Before(max, es, k).flusher.Requeueing?
    decreases k
  {
    if d < k {
      NeverRequeueing(max, es, d, k - 1);
      BeforeNext(max, es, k - 1);
      AtMostTwoWrites(max, es[..k - 1]);
      OnlyBusySlotsRequeue(max, Before(max, es, k - 1), es[k - 1]);
    }
  }

  /** In particular everything is stored exactly if no write fails, when the flusher is not
      putting packets back at the final drain and never finds both write slots busy after
      it. */
  lemma EverythingStored<P>(max: nat, es: seq<Event<P>>, d: nat)
    requires LastDrain(max, es, d) && Settled(Run(max, Start(), es))
    requires !Before(max, es, d).flusher.Requeueing? && SlotsFreeFrom(max, es, d)
    ensures AllStored(Run(max, Start(), es)) <==> !exists k :: FailsAt(max, es, k)
  {
    StoredUnlessRequeued(max, es, d);
    if i :| RequeuedForGood(max, es, d, i) {
      NeverRequeueing(max, es, d, i);
    }
  }

  /** A failed periodic write loses its batch: the error is only logged. */
  lemma FailedWriteLoses<P>(max: nat, a: P) returns (es: seq<Event<P>>)
    requires max > 0
    ensures Run(max, Start(), es) == State([], Gone, [], Done, true, [a], [], [], [a])
    ensures Settled(Run(max, Start(), es))
  {
    var s: State<P> := Start();
    es, s := StartWrite(max, [], s, a);
    es, s := Next(max, es, s, WriteDone(0, false));
    assert s == State([], Waiting, [], NotYet, false, [a], [], [], [a]);
    es := StopEmpty(max, es, s);
  }

  /** A session with nothing buffered or in flight stops, and its analysis runs to the end. */
  lemma StopEmpty<P>(max: nat, es: seq<Event<P>>, s: State<P>) returns (es': seq<Event<P>>)
    requires s == Run(max, Start(), es) && s.flusher == Waiting && s.buffer == [] && s.final == NotYet
    ensures Run(max, Start(), es') == s.(flusher := Gone, stopped := true, final := Done)
  {
    var t;
    es', t := Next(max, es, s, StopSession);
    es', t := Next(max, es', t, Leave);
    es', t := Next(max, es', t, FinalDrain);
  }

  /** If flows or calls cannot be stored, the final drain never happens and what is
      buffered stays there. */
  lemma GivingUpStrands<P>(max: nat, a: P) returns (es: seq<Event<P>>)
    requires max > 0
    ensures Run(max, Start(), es) == State([a], Gone, [], GivenUp, true, [a], [], [], [])
    ensures Settled(Run(max, Start(), es))
  {
    var s: State<P> := Start();
    es, s := Next(max, [], s, Capture(a));
    assert s.buffer == [a];
    es, s := Next(max, es, s, StopSession);
    es, s := Next(max, es, s, Leave);
    es, s := Next(max, es, s, GiveUp);
  }

  /** The code does not make the flusher leave first: with both write slots busy, a batch
      the flusher drew before the final drain goes back into the buffer after it, and no
      write ever picks it up. */
  lemma RequeueAfterFinalDrain<P>(max: nat, a: P, b: P, c: P) returns (es: seq<Event<P>>)
    requires max > 0
    ensures var t := Run(max, Start(), es);
            Settled(t) && t.captured == [a, b, c] && t.stored == [a, b] && t.buffer == [c] && t.dropped == []
  {
    var s: State<P> := Start();
    es, s := StartWrite(max, [], s, a);
    es, s := StartWrite(max, es, s, b);
    assert s == State([], Waiting, [[a], [b]], NotYet, false, [a, b], [], [], []);
    es, s := Next(max, es, s, Capture(c));
    assert s.buffer == [c];
    es, s := Next(max, es, s, Tick);
    es, s := Next(max, es, s, StopSession);
    assert s == State([], Holding([c]), [[a], [b]], NotYet, true, [a, b, c], [], [], []);
    es := Strand(max, es, s, a, b, c);
  }

  lemma StartWrite<P>(max: nat, es: seq<Event<P>>, s: State<P>, p: P) returns (es': seq<Event<P>>, s': State<P>)
    requires max > 0 && s == Run(max, Start(), es) && s.flusher.Waiting? && s.buffer == [] && |s.inflight| < WRITE_SLOTS
    ensures s' == Run(max, Start(), es') == s.(inflight := s.inflight + [[p]], captured := s.captured + [p])
  {
    es', s' := Next(max, es, s, Capture(p));
    assert s'.buffer == [p];
    es', s' := Next(max, es', s', Tick);
    es', s' := Next(max, es', s', Acquire);
  }

  lemma Strand<P>(max: nat, es: seq<Event<P>>, s: State<P>, a: P, b: P, c: P) returns (es': seq<Event<P>>)
    requires max > 0 && s == Run(max, Start(), es)
    requires s == State([], Holding([c]), [[a], [b]], NotYet, true, [a, b, c], [], [], [])
    ensures Run(max, Start(), es') == State([c], Gone, [], Done, true, [a, b, c], [a, b], [], [])
  {
    var t;
    es', t := Next(max, es, s, FinalDrain);
    es', t := Next(max, es', t, Acquire);
    es', t := Next(max, es', t, Requeue);
    assert [c][1..] == [] && t.buffer == [c];
    es' := FinishWrites(max, es', t, a, b, c);
  }

  lemma FinishWrites<P>(max: nat, es: seq<Event<P>>, s: State<P>, a: P, b: P, c: P) returns (es': seq<Event<P>>)
    requires s == Run(max, Start(), es) == State([c], Requeueing([]), [[a], [b]], Done, true, [a, b, c], [], [], [])
    ensures Run(max, Start(), es') == State([c], Gone, [], Done, true, [a, b, c], [a, b], [], [])
  {
    var t;
    es', t := Next(max, es, s, Requeue);
    es', t := Next(max, es', t, Leave);
    es', t := Next(max, es', t, WriteDone(0, true));
    assert t == State([c], Gone, [[b]], Done, true, [a, b, c], [a], [], []);
    es', t := Next(max, es', t, WriteDone(0, true));
    assert t.stored == [a, b] && t.inflight == [];
  }

  lemma Next<P>(max: nat, es: seq<Event<P>>, s: State<P>, e: Event<P>) returns (es': seq<Event<P>>, s': State<P>)
    requires s == Run(max, Start(), es)
    ensures es' == es + [e] && s' == Step(max, s, e) == Run(max, Start(), es')
  {
    es', s' := es + [e], Step(max, s, e);
    assert es'[..|es|] == es;
  }
}
