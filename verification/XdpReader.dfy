/** `ReadPacket` as the sequential program it is: the reader's steps in program order, with
    a burst of kernel activity of its own before each of them. */
module XdpReader {
  import opened Bytes
  import opened XdpRings
  import opened XdpProofs

  predicate IsKernel(e: Event) { e.Take? || e.Scribble? || e.Deliver? || e.DeliverCorrupt? }

  predicate KernelOnly(es: seq<Event>) { forall i :: 0 <= i < |es| ==> IsKernel(es[i]) }

  /** A point of a run from `init`: the state, the events that led to it, and how many
      bursts of kernel activity there have been. */
  datatype Point = Point(s: State, es: seq<Event>, bursts: nat)

  ghost predicate On(init: State, p: Point, accepts: seq<byte> -> bool)
    requires Shaped(init)
  {
    p.s == Run(init, p.es, accepts)
  }

  /** One step of the run. */
  method Do(ghost init: State, p: Point, e: Event, accepts: seq<byte> -> bool) returns (q: Point)
    requires Shaped(init) && On(init, p, accepts)
    ensures On(init, q, accepts) && Shaped(p.s) && q.s == Step(p.s, e, accepts)
    ensures q.es == p.es + [e] && q.bursts == p.bursts
  {
    var es := p.es + [e];
    assert es[..|p.es|] == p.es;
    q := Point(Step(p.s, e, accepts), es, p.bursts);
  }

  /** What the kernel leaves alone: the reader, its results, and what is published. */
  predicate SameReader(s: State, t: State) {
    && t.reader == s.reader && t.examined == s.examined && t.returned == s.returned
    && t.consumed == s.consumed && s.published <= t.published
  }

  lemma KernelLeavesReader(s: State, e: Event, accepts: seq<byte> -> bool)
    requires Shaped(s) && IsKernel(e)
    ensures SameReader(s, Step(s, e, accepts))
  {
  }

  /** All the kernel will do: `env(n)` is its n-th burst of activity. Every point between
      two steps of the reader has a burst of its own, so the bursts are independent. */
  type Kernel = nat -> seq<Event>

  ghost predicate KernelBursts(env: Kernel) { forall n :: KernelOnly(env(n)) }

  lemma SameReaderChain(s: State, t: State, u: State)
    requires SameReader(s, t) && SameReader(t, u)
    ensures SameReader(s, u)
  {
  }

  lemma OneMore(es: seq<Event>, burst: seq<Event>, i: nat)
    requires i < |burst|
    ensures es + burst[..i] + [burst[i]] == es + burst[..i + 1]
  {
  }

  /** One step of the kernel. */
  method KernelStep(ghost init: State, p: Point, e: Event, accepts: seq<byte> -> bool) returns (q: Point)
    requires Shaped(init) && On(init, p, accepts) && IsKernel(e)
    ensures On(init, q, accepts) && SameReader(p.s, q.s) && q.es == p.es + [e] && q.bursts == p.bursts
  {
    q := Do(init, p, e, accepts);
    KernelLeavesReader(p.s, e, accepts);
  }

  /** The next burst; it touches neither the reader nor its results. */
  method Interfere(ghost init: State, p: Point, env: Kernel, accepts: seq<byte> -> bool) returns (q: Point)
    requires Shaped(init) && On(init, p, accepts) && KernelBursts(env)
    ensures On(init, q, accepts) && SameReader(p.s, q.s)
    ensures q.es == p.es + env(p.bursts) && q.bursts == p.bursts + 1
  {
    var burst := env(p.bursts);
    q := p;
    for i := 0 to |burst|
      invariant On(init, q, accepts) && SameReader(p.s, q.s)
      invariant q.es == p.es + burst[..i] && q.bursts == p.bursts
    {
      ghost var now := q.s;
      q := KernelStep(init, q, burst[i], accepts);
      SameReaderChain(p.s, now, q.s);
      OneMore(p.es, burst, i);
    }
    assert burst[..|burst|] == burst;
    q := q.(bursts := q.bursts + 1);
  }

  /** `q` is reached from `p`. */
  predicate Later(p: Point, q: Point) { p.es <= q.es && p.bursts <= q.bursts && p.s.published <= q.s.published }

  /** What a look at the rx ring finds: nothing, a corrupt descriptor, or a packet. */
  datatype Poll = Empty | Bad | Packet(data: seq<byte>)

  function Seen(s: State): Poll {
    if s.consumed >= |s.published| then Empty
    else if s.published[s.consumed].good then Packet(s.published[s.consumed].data)
    else Bad
  }

  /** Event k of a run is a look at the ring, and this is what it finds. */
  ghost predicate Looks(init: State, es: seq<Event>, accepts: seq<byte> -> bool, k: nat, found: Poll)
    requires Shaped(init)
  {
    k < |es| && es[k] == Load && Run(init, es[..k], accepts).reader == Polling && Seen(Run(init, es[..k], accepts)) == found
  }

  lemma StillLooks(init: State, es: seq<Event>, es': seq<Event>, accepts: seq<byte> -> bool, k: nat, found: Poll)
    requires Shaped(init) && Looks(init, es, accepts, k, found) && es <= es'
    ensures Looks(init, es', accepts, k, found)
  {
    assert es'[..k] == es[..k];
  }

  lemma SeenStays(s: State, t: State)
    requires t.consumed == s.consumed && s.published <= t.published
    ensures Seen(s) != Empty ==> Seen(t) == Seen(s)
  {
  }

  /** The look at the ring itself: the two counters are compared. */
  method Look(ghost init: State, p: Point, env: Kernel, accepts: seq<byte> -> bool)
    returns (q: Point, ghost at: nat, ghost found: Poll)
    requires Initial(init) && On(init, p, accepts) && KernelBursts(env) && p.s.reader == Polling
    ensures On(init, q, accepts) && Later(p, q) && |p.es| <= at && Looks(init, q.es, accepts, at, found)
    ensures q.s.returned == p.s.returned && q.s.examined == p.s.examined && q.s.consumed == p.s.consumed
    ensures found == Seen(q.s) && (Seen(p.s) != Empty ==> found == Seen(p.s))
    ensures if found == Empty then q.s.reader == Polling else q.s.reader.Loaded?
  {
    q := Interfere(init, p, env, accepts);
    SeenStays(p.s, q.s);
    at, found := |q.es|, Seen(q.s);
    RunKeeps(init, q.es, accepts);
    PublishedIsFetched(q.s, accepts);
    ghost var before := q.es;
    q := Do(init, q, Load, accepts);
    assert q.es[..at] == before;
  }

  /** Reads the descriptor of a non-empty ring and checks it. */
  method Inspect(ghost init: State, p: Point, env: Kernel, accepts: seq<byte> -> bool) returns (q: Point)
    requires Initial(init) && On(init, p, accepts) && KernelBursts(env) && p.s.reader.Loaded?
    ensures On(init, q, accepts) && Later(p, q) && q.s.returned == p.s.returned && q.s.examined == p.s.examined
    ensures Seen(p.s).Packet? ==> q.s.reader.Copying? && q.s.consumed == p.s.consumed && Seen(q.s) == Seen(p.s)
    ensures Seen(p.s) == Bad ==> q.s.reader == Polling && q.s.consumed == p.s.consumed + 1
  {
    q := Interfere(init, p, env, accepts);
    q := ReadSlot(init, q, accepts);
    q := Interfere(init, q, env, accepts);
    SeenStays(p.s, q.s);
    q := CheckSlot(init, q, accepts);
  }

  method ReadSlot(ghost init: State, p: Point, accepts: seq<byte> -> bool) returns (q: Point)
    requires Initial(init) && On(init, p, accepts) && p.s.reader.Loaded?
    ensures On(init, q, accepts) && q.es == p.es + [ReadDesc] && q.bursts == p.bursts
    ensures q.s == p.s.(reader := q.s.reader) && q.s.reader.Checking?
  {
    q := Do(init, p, ReadDesc, accepts);
  }

  method CheckSlot(ghost init: State, p: Point, accepts: seq<byte> -> bool) returns (q: Point)
    requires Initial(init) && On(init, p, accepts) && p.s.reader.Checking?
    ensures On(init, q, accepts) && q.es == p.es + [Check] && q.bursts == p.bursts
    ensures q.s.published == p.s.published && q.s.returned == p.s.returned && q.s.examined == p.s.examined
    ensures Seen(p.s).Packet? ==> q.s.reader.Copying? && q.s.consumed == p.s.consumed
    ensures Seen(p.s) == Bad ==> q.s.reader == Polling && q.s.consumed == p.s.consumed + 1
  {
    RunKeeps(init, p.es, accepts);
    CheckMoves(p.s, accepts);
    q := Do(init, p, Check, accepts);
  }

  /** Looks at the rx ring: leaves the reader polling, or copying a good packet. */
  method Fetch(ghost init: State, p: Point, env: Kernel, accepts: seq<byte> -> bool)
    returns (q: Point, ghost at: nat, ghost found: Poll)
    requires Initial(init) && On(init, p, accepts) && KernelBursts(env) && p.s.reader == Polling
    ensures On(init, q, accepts) && Later(p, q) && q.s.returned == p.s.returned && q.s.examined == p.s.examined
    ensures |p.es| <= at && Looks(init, q.es, accepts, at, found)
    ensures found.Packet? ==> q.s.reader.Copying? && q.s.consumed == p.s.consumed && Seen(q.s) == found
    ensures !found.Packet? ==> q.s.reader == Polling && q.s.consumed == p.s.consumed + (if found.Bad? then 1 else 0)
    ensures Seen(p.s) != Empty ==> found == Seen(p.s)
  {
    q, at, found := Look(init, p, env, accepts);
    if q.s.reader == Polling {
      return;
    }
    ghost var looked := q.es;
    q := Inspect(init, q, env, accepts);
    StillLooks(init, looked, q.es, accepts, at, found);
  }

  /** While copying there is a next byte to copy, inside UMEM, and what has been copied is
      the front of the packet. */
  lemma CopyMakesProgress(init: State, es: seq<Event>, accepts: seq<byte> -> bool)
    requires Initial(init) && Run(init, es, accepts).reader.Copying?
    ensures
      var s := Run(init, es, accepts);
      var r, t := s.reader, DoCopyByte(s).reader;
      && s.consumed < |s.published| && r.data <= s.published[s.consumed].data
      && |r.data| <= r.desc.length == |s.published[s.consumed].data|
      && (|r.data| < r.desc.length ==> t.Copying? && t.desc == r.desc && |t.data| == |r.data| + 1)
  {
    RunKeeps(init, es, accepts);
    var s := Run(init, es, accepts);
    var d := s.published[s.consumed];
    assert Intact(d, s.umem);
    if |s.reader.data| < d.desc.length {
      NextByte(d, s.umem, |s.reader.data|);
    }
  }

  /** Copies the packet out of UMEM, one byte at a time, and gives the rx slot back. */
  method CopyOut(ghost init: State, p: Point, env: Kernel, accepts: seq<byte> -> bool)
    returns (q: Point, data: seq<byte>)
    requires Initial(init) && On(init, p, accepts) && KernelBursts(env) && p.s.reader.Copying?
    ensures On(init, q, accepts) && Later(p, q)
    ensures q.s.returned == p.s.returned && q.s.examined == p.s.examined + [data]
    ensures q.s.reader.Examining? && q.s.reader.data == data
    ensures q.s.consumed == p.s.consumed + 1 && (Seen(p.s).Packet? ==> Seen(p.s) == Packet(data))
  {
    q := Interfere(init, p, env, accepts);
    var n := q.s.reader.desc.length;
    CopyMakesProgress(init, q.es, accepts);
    while |q.s.reader.data| < n
      invariant On(init, q, accepts) && Later(p, q) && SameResults(p.s, q.s)
      invariant q.s.reader.Copying? && q.s.reader.desc.length == n && |q.s.reader.data| <= n
      decreases n - |q.s.reader.data|
    {
      q := CopyOne(init, q, env, accepts);
    }
    CopyMakesProgress(init, q.es, accepts);
    data := q.s.reader.data;
    q := Do(init, q, Advance, accepts);
  }

  predicate SameResults(s: State, t: State) {
    t.examined == s.examined && t.returned == s.returned && t.consumed == s.consumed
  }

  /** Copies one byte, with a burst of the kernel after it. */
  method CopyOne(ghost init: State, p: Point, env: Kernel, accepts: seq<byte> -> bool) returns (q: Point)
    requires Initial(init) && On(init, p, accepts) && KernelBursts(env)
    requires p.s.reader.Copying? && |p.s.reader.data| < p.s.reader.desc.length
    ensures On(init, q, accepts) && Later(p, q) && SameResults(p.s, q.s)
    ensures q.s.reader.Copying? && q.s.reader.desc == p.s.reader.desc && |q.s.reader.data| == |p.s.reader.data| + 1
  {
    CopyMakesProgress(init, p.es, accepts);
    q := Do(init, p, CopyByte, accepts);
    q := Interfere(init, q, env, accepts);
  }

  lemma RecycleSucceeds(init: State, es: seq<Event>, accepts: seq<byte> -> bool)
    requires Initial(init) && Run(init, es, accepts).reader.Recycling?
    ensures
      var s := Run(init, es, accepts);
      var t := DoWriteFill(s);
      t.reader == Publishing(s.reader.desc, s.reader.data, s.reader.fillProd)
      && t.examined == s.examined && t.returned == s.returned
  {
    RecycleAlwaysHasRoom(init, es, accepts);
  }

  /** Hands the frame back through the fill ring. */
  method Recycle(ghost init: State, p: Point, env: Kernel, accepts: seq<byte> -> bool) returns (q: Point)
    requires Initial(init) && On(init, p, accepts) && KernelBursts(env) && p.s.reader.Examining?
    ensures On(init, q, accepts) && Later(p, q) && q.s.reader == Polling && q.s.examined == p.s.examined
    ensures q.s.returned == p.s.returned + (if accepts(p.s.reader.data) then [p.s.reader.data] else [])
    ensures q.s.consumed == p.s.consumed
  {
    q := Interfere(init, p, env, accepts);
    q := Do(init, q, LoadFill, accepts);
    q := Interfere(init, q, env, accepts);
    RecycleSucceeds(init, q.es, accepts);
    q := Do(init, q, WriteFill, accepts);
    q := Interfere(init, q, env, accepts);
    q := Do(init, q, PublishFill, accepts);
  }

  /** One turn of the loop: `data` is the packet examined, if any. */
  method Round(ghost init: State, p: Point, env: Kernel, accepts: seq<byte> -> bool)
    returns (q: Point, data: Option<seq<byte>>, ghost at: nat, ghost found: Poll)
    requires Initial(init) && On(init, p, accepts) && KernelBursts(env) && p.s.reader == Polling
    ensures On(init, q, accepts) && Later(p, q) && q.s.reader == Polling
    ensures Turned(init, p, q, accepts, data, at, found)
  {
    q, at, found := Fetch(init, p, env, accepts);
    data := None;
    if q.s.reader == Polling {
      return;
    }
    ghost var looked := q.es;
    var bytes;
    q, bytes := CopyOut(init, q, env, accepts);
    q := Recycle(init, q, env, accepts);
    StillLooks(init, looked, q.es, accepts, at, found);
    data := Some(bytes);
  }

  /** A poll that does not end the call. */
  predicate Fruitless(found: Poll, accepts: seq<byte> -> bool) { found.Packet? ==> !accepts(found.data) }

  /** How many polls found something. */
  function Taken(polls: seq<Poll>): nat {
    if polls == [] then 0 else Taken(polls[..|polls| - 1]) + if polls[|polls| - 1] == Empty then 0 else 1
  }

  /** The looks at the ring that the call made, in order, and what each found. */
  ghost predicate Log(init: State, es: seq<Event>, accepts: seq<byte> -> bool, at: seq<nat>, polls: seq<Poll>)
    requires Shaped(init)
  {
    && |at| == |polls|
    && (at != [] ==>
          var n := |at| - 1;
          && Log(init, es, accepts, at[..n], polls[..n])
          && (n > 0 ==> at[n - 1] < at[n])
          && Looks(init, es, accepts, at[n], polls[n]))
  }

  lemma {:induction false} LogLater(
    init: State, es: seq<Event>, es': seq<Event>, accepts: seq<byte> -> bool, at: seq<nat>, polls: seq<Poll>)
    requires Shaped(init) && Log(init, es, accepts, at, polls) && es <= es'
    ensures Log(init, es', accepts, at, polls)
    decreases |at|
  {
    if at != [] {
      var n := |at| - 1;
      LogLater(init, es, es', accepts, at[..n], polls[..n]);
      StillLooks(init, es, es', accepts, at[n], polls[n]);
    }
  }

  lemma LogNext(init: State, es: seq<Event>, es': seq<Event>, accepts: seq<byte> -> bool, at: seq<nat>, polls: seq<Poll>,
                k: nat, found: Poll)
    requires Shaped(init) && Log(init, es, accepts, at, polls) && es <= es'
    requires |es| <= k && Looks(init, es', accepts, k, found)
    ensures Log(init, es', accepts, at + [k], polls + [found])
    ensures Taken(polls + [found]) == Taken(polls) + if found == Empty then 0 else 1
  {
    LogLater(init, es, es', accepts, at, polls);
    LogAdd(init, es', accepts, at, polls, k, found);
    TakenNext(polls, found);
  }

  lemma LogAdd(init: State, es: seq<Event>, accepts: seq<byte> -> bool, at: seq<nat>, polls: seq<Poll>, k: nat, found: Poll)
    requires Shaped(init) && Log(init, es, accepts, at, polls) && Looks(init, es, accepts, k, found)
    requires at != [] ==> at[|at| - 1] < k
    ensures Log(init, es, accepts, at + [k], polls + [found])
  {
    var at', polls' := at + [k], polls + [found];
    assert at'[..|at'| - 1] == at && polls'[..|at'| - 1] == polls;
  }

  lemma TakenNext(polls: seq<Poll>, found: Poll)
    ensures Taken(polls + [found]) == Taken(polls) + if found == Empty then 0 else 1
  {
    assert (polls + [found])[..|polls|] == polls;
  }

  /** ReadPacket: polls until the ring yields a packet the filter accepts; `rounds` bounds
      the polls before the source is closed. Whatever the kernel does before each of its
      steps, the call is a run of the protocol, and it returns exactly the first packet it
      examined that the filter accepts. Each poll that finds a descriptor consumes it, so
      nothing is returned only if every poll found the ring empty, a corrupt descriptor or
      a rejected packet; and a packet waiting at the call is the first to be looked at. */
  method ReadPacket(ghost init: State, p: Point, env: Kernel, rounds: nat, accepts: seq<byte> -> bool)
    returns (q: Point, packet: Option<seq<byte>>, ghost rejected: seq<seq<byte>>, ghost at: seq<nat>, ghost polls: seq<Poll>)
    requires Initial(init) && On(init, p, accepts) && p.s.reader == Polling && KernelBursts(env)
    ensures On(init, q, accepts) && Later(p, q) && q.s.reader == Polling
    ensures forall i :: 0 <= i < |rejected| ==> !accepts(rejected[i])
    ensures packet.None? ==> q.s.examined == p.s.examined + rejected && q.s.returned == p.s.returned
    ensures packet.Some? ==>
              && accepts(packet.value) && q.s.examined == p.s.examined + rejected + [packet.value]
              && q.s.returned == p.s.returned + [packet.value]
    ensures Log(init, q.es, accepts, at, polls) && q.s.consumed == p.s.consumed + Taken(polls)
    ensures packet.None? ==> |polls| == rounds && forall i :: 0 <= i < |polls| ==> Fruitless(polls[i], accepts)
    ensures packet.Some? ==> polls != [] && polls[|polls| - 1] == Packet(packet.value)
    ensures rounds > 0 && Seen(p.s).Packet? && accepts(Seen(p.s).data) ==> packet == Some(Seen(p.s).data)
  {
    q, packet, rejected, at, polls := p, None, [], [], [];
    for round := 0 to rounds
      invariant On(init, q, accepts) && Later(p, q) && q.s.reader == Polling && packet == None
      invariant |polls| == round && Underway(init, p, q, accepts, rejected, at, polls)
    {
      ghost var now, k, found := q, 0, Empty;
      var data;
      q, data, k, found := Round(init, q, env, accepts);
      if data.Some? && accepts(data.value) {
        UnderwayEnds(init, p, now, q, accepts, rejected, at, polls, data.value, k, found);
        at, polls := at + [k], polls + [found];
        packet := data;
        return;
      }
      UnderwayNext(init, p, now, q, accepts, rejected, at, polls, data, k, found);
      at, polls := at + [k], polls + [found];
      rejected := rejected + if data.Some? then [data.value] else [];
    }
  }

  /** The state of the call after some fruitless polls. */
  ghost predicate Underway(
    init: State, p: Point, q: Point, accepts: seq<byte> -> bool, rejected: seq<seq<byte>>, at: seq<nat>, polls: seq<Poll>)
    requires Shaped(init)
  {
    && Log(init, q.es, accepts, at, polls) && q.s.consumed == p.s.consumed + Taken(polls)
    && (forall i :: 0 <= i < |rejected| ==> !accepts(rejected[i]))
    && q.s.examined == p.s.examined + rejected && q.s.returned == p.s.returned
    && (forall i :: 0 <= i < |polls| ==> Fruitless(polls[i], accepts))
    && (polls == [] ==> q == p)
    && (polls != [] && Seen(p.s) != Empty ==> polls[0] == Seen(p.s))
  }

  /** What one turn of the loop did. */
  ghost predicate Turned(init: State, now: Point, q: Point, accepts: seq<byte> -> bool, data: Option<seq<byte>>, k: nat, found: Poll)
    requires Shaped(init)
  {
    && now.es <= q.es && |now.es| <= k && Looks(init, q.es, accepts, k, found)
    && data == (if found.Packet? then Some(found.data) else None)
    && q.s.examined == now.s.examined + (if data.Some? then [data.value] else [])
    && q.s.returned == now.s.returned + (if data.Some? && accepts(data.value) then [data.value] else [])
    && q.s.consumed == now.s.consumed + (if found == Empty then 0 else 1)
    && (Seen(now.s) != Empty ==> found == Seen(now.s))
  }

  lemma UnderwayNext(
    init: State, p: Point, now: Point, q: Point, accepts: seq<byte> -> bool, rejected: seq<seq<byte>>, at: seq<nat>,
    polls: seq<Poll>, data: Option<seq<byte>>, k: nat, found: Poll)
    requires Shaped(init) && Underway(init, p, now, accepts, rejected, at, polls)
    requires Turned(init, now, q, accepts, data, k, found) && Fruitless(found, accepts)
    ensures Underway(init, p, q, accepts, rejected + (if data.Some? then [data.value] else []), at + [k], polls + [found])
  {
    LogNext(init, now.es, q.es, accepts, at, polls, k, found);
    assert polls != [] ==> (polls + [found])[0] == polls[0];
  }

  lemma UnderwayEnds(
    init: State, p: Point, now: Point, q: Point, accepts: seq<byte> -> bool, rejected: seq<seq<byte>>, at: seq<nat>,
    polls: seq<Poll>, data: seq<byte>, k: nat, found: Poll)
    requires Shaped(init) && Underway(init, p, now, accepts, rejected, at, polls)
    requires Turned(init, now, q, accepts, Some(data), k, found) && accepts(data)
    ensures Log(init, q.es, accepts, at + [k], polls + [found])
    ensures q.s.consumed == p.s.consumed + Taken(polls + [found])
    ensures q.s.examined == p.s.examined + rejected + [data] && q.s.returned == p.s.returned + [data]
    ensures Seen(p.s).Packet? && accepts(Seen(p.s).data) ==> Seen(p.s) == Packet(data)
  {
    LogNext(init, now.es, q.es, accepts, at, polls, k, found);
    assert polls != [] ==> Fruitless(polls[0], accepts);
  }
}
