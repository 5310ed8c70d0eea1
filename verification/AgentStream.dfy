/** The agent-to-central packet stream: handshake, batching on the agent, the receive loop
    and its bounded queue on central. JSON and zlib are codecs of which only
    invertibility is used. */
module AgentStream {
  import opened Bytes
  import opened Wire

  const MAX_BATCH := 500

  datatype Codec<!T> = Codec(enc: T -> seq<byte>, dec: seq<byte> -> Option<T>)

  ghost predicate Invertible<T(!new)>(c: Codec<T>) { forall v :: c.dec(c.enc(v)) == Some(v) }

  /** writeMsgZlib and readMsgZlib: the plain codec with a compressor around it. */
  function Compressed<T>(plain: Codec<T>, z: Codec<seq<byte>>): Codec<T> {
    Codec((v: T) => z.enc(plain.enc(v)),
          (b: seq<byte>) => match z.dec(b) case Some(d) => plain.dec(d) case None => None)
  }

  /** Nothing that does not decompress is taken for a message. */
  lemma CompressedRejects<T>(plain: Codec<T>, z: Codec<seq<byte>>, b: seq<byte>)
    ensures Compressed(plain, z).dec(b).Some? <==> z.dec(b).Some? && plain.dec(z.dec(b).value).Some?
  {
  }

  lemma CompressedInvertible<T(!new)>(plain: Codec<T>, z: Codec<seq<byte>>)
    requires Invertible(plain) && Invertible(z)
    ensures Invertible(Compressed(plain, z))
  {
    var c := Compressed(plain, z);
    forall v: T
      ensures c.dec(c.enc(v)) == Some(v)
    {
      assert z.dec(z.enc(plain.enc(v))) == Some(plain.enc(v));
    }
  }

  // ----- handshake

  datatype Hello = Hello(version: string, agentID: string, token: string, canCompress: bool, linkType: int)

  datatype HelloAck = HelloAck(ok: bool, sessionID: string, message: string, useCompress: bool)

  datatype Engine = Started(sessionID: string) | Refused(reason: string)

  /** handleAgent's answer: the token is checked only if one is configured. */
  function Answer(token: string, hello: Hello, engine: Engine): HelloAck {
    if token != "" && hello.token != token then HelloAck(false, "", "invalid token", false)
    else match engine
      case Refused(reason) => HelloAck(false, "", reason, false)
      case Started(id) => HelloAck(true, id, "", hello.canCompress)
  }

  /** The codec each side takes for batches, from the flag it goes by. */
  function BatchCodec<T>(plain: Codec<T>, z: Codec<seq<byte>>, compress: bool): Codec<T> {
    if compress then Compressed(plain, z) else plain
  }

  /** The handshake over the wire: what central understands of the agent's frame, and what
      the agent understands of central's. Central goes by the agent's offer, the agent by
      the answer; both end up with the same codec. */
  lemma HandshakeAgrees<T>(
    hellos: Codec<Hello>, acks: Codec<HelloAck>, hello: Hello, token: string, engine: Engine,
    plain: Codec<T>, z: Codec<seq<byte>>, more: seq<byte>, back: seq<byte>)
    requires Invertible(hellos) && Invertible(acks)
    requires 1 <= |hellos.enc(hello)| <= MAX_MSG
    requires 1 <= |acks.enc(Answer(token, hello, engine))| <= MAX_MSG
    ensures
      var got := ReadFrame(Encode(hellos.enc(hello)) + more);
      && got.Got? && hellos.dec(got.payload) == Some(hello) && got.rest == more
      && var reply := ReadFrame(Encode(acks.enc(Answer(token, hello, engine))) + back);
      && reply.Got? && acks.dec(reply.payload).Some?
      && var ack := acks.dec(reply.payload).value;
      && (ack.ok <==> (token == "" || hello.token == token) && engine.Started?)
      && (ack.ok ==> ack.sessionID == engine.sessionID && ack.useCompress == hello.canCompress)
      && (ack.ok ==> BatchCodec(plain, z, ack.useCompress) == BatchCodec(plain, z, hello.canCompress))
  {
    FrameRoundTrip(hellos.enc(hello), more);
    FrameRoundTrip(acks.enc(Answer(token, hello, engine)), back);
  }

  // ----- the agent

  datatype Batch<P> = Batch(agentID: string, seqNum: nat, drops: nat, packets: seq<P>)

  /** How a write went: all of it, or the connection broke after n bytes. */
  datatype Write = Complete | Broken(n: nat)

  /** `sent`, `torn` and `dequeued` are history: batches written whole, the piece of a
      frame left by a broken write, and packets taken from the capture queue. */
  datatype Agent<P> = Agent(
    batch: seq<P>, seqNum: nat, wire: seq<byte>, open: bool,
    sent: seq<Batch<P>>, torn: seq<byte>, dequeued: seq<P>)

  datatype Event<P> = Packet(p: P, w: Write) | Tick(w: Write) | Heartbeat(w: Write) | Stop(w: Write)

  function Pending<P>(id: string, s: Agent<P>): Batch<P> { Batch(id, s.seqNum, 0, s.batch) }

  /** The flush closure of connect, without its throttle (see module Throttle). */
  function Flush<P>(c: Codec<Batch<P>>, id: string, s: Agent<P>, force: bool, w: Write): Agent<P> {
    if s.batch == [] && !force then s
    else
      var frame := Encode(c.enc(Pending(id, s)));
      match w
      case Complete =>
        s.(wire := s.wire + frame, sent := s.sent + [Pending(id, s)], seqNum := (s.seqNum + 1) % TWO64, batch := [])
      case Broken(n) =>
        var cut := frame[..if n < |frame| then n else |frame| - 1];
        s.(wire := s.wire + cut, torn := cut, open := false)
  }

  /** One turn of the select loop. */
  function Turn<P>(c: Codec<Batch<P>>, id: string, s: Agent<P>, e: Event<P>): Agent<P> {
    if !s.open then s
    else match e
      case Packet(p, w) =>
        var t := s.(batch := s.batch + [p], dequeued := s.dequeued + [p]);
        if |t.batch| >= MAX_BATCH then Flush(c, id, t, false, w) else t
      case Tick(w) => Flush(c, id, s, false, w)
      case Heartbeat(w) => Flush(c, id, s, true, w)
      case Stop(w) => Flush(c, id, s, false, w).(open := false)
  }

  function FreshAgent<P>(): Agent<P> { Agent([], 0, [], true, [], [], []) }

  function AgentRun<P>(c: Codec<Batch<P>>, id: string, es: seq<Event<P>>): Agent<P> {
    if es == [] then FreshAgent() else Turn(c, id, AgentRun(c, id, es[..|es| - 1]), es[|es| - 1])
  }

  /** The agent's connection loop as an object. */
  class Streamer<P> {
    const codec: Codec<Batch<P>>
    const id: string
    var batch: seq<P>
    var seqNum: nat
    var wire: seq<byte>
    var open: bool
    ghost var sent: seq<Batch<P>>
    ghost var torn: seq<byte>
    ghost var dequeued: seq<P>

    ghost function View(): Agent<P>
      reads this
    {
      Agent(batch, seqNum, wire, open, sent, torn, dequeued)
    }

    constructor (codec: Codec<Batch<P>>, id: string)
      ensures this.codec == codec && this.id == id && View() == FreshAgent()
    {
      this.codec, this.id := codec, id;
      batch, seqNum, wire, open := [], 0, [], true;
      sent, torn, dequeued := [], [], [];
    }

    method FlushBatch(force: bool, w: Write) returns (ok: bool)
      modifies this
      ensures View() == Flush(codec, id, old(View()), force, w)
      ensures ok ==> open == old(open)
    {
      if |batch| == 0 && !force {
        return true;
      }
      var b := Batch(id, seqNum, 0, batch);
      var frame := Encode(codec.enc(b));
      match w {
        case Complete =>
          wire := wire + frame;
          sent := sent + [b];
        case Broken(n) =>
          var cut := frame[..if n < |frame| then n else |frame| - 1];
          wire, torn, open := wire + cut, cut, false;
          return false;
      }
      seqNum := (seqNum + 1) % TWO64;
      batch := [];
      return true;
    }

    method OnEvent(e: Event<P>)
      modifies this
      ensures View() == Turn(codec, id, old(View()), e)
    {
      if !open {
        return;
      }
      match e {
        case Packet(p, w) =>
          batch := batch + [p];
          dequeued := dequeued + [p];
          if |batch| >= MAX_BATCH {
            var _ := FlushBatch(false, w);
          }
        case Tick(w) =>
          var _ := FlushBatch(false, w);
        case Heartbeat(w) =>
          var _ := FlushBatch(true, w);
        case Stop(w) =>
          var _ := FlushBatch(false, w);
          open := false;
      }
    }
  }

  /** The frames of some batches, back to back. */
  function Frames<P>(c: Codec<Batch<P>>, bs: seq<Batch<P>>): seq<byte> {
    if bs == [] then [] else Frames(c, bs[..|bs| - 1]) + Encode(c.enc(bs[|bs| - 1]))
  }

  function PacketsIn<P>(bs: seq<Batch<P>>): seq<P> {
    if bs == [] then [] else PacketsIn(bs[..|bs| - 1]) + bs[|bs| - 1].packets
  }

  ghost predicate AgentInv<P>(c: Codec<Batch<P>>, id: string, s: Agent<P>) {
    && s.wire == Frames(c, s.sent) + s.torn
    && (s.open ==> s.torn == [] && |s.batch| < 500)
    && |s.batch| <= 500
    && (s.torn != [] ==> s.torn < Encode(c.enc(Pending(id, s))))
    && s.seqNum == |s.sent| % TWO64
    && (forall i :: 0 <= i < |s.sent| ==>
          && s.sent[i].agentID == id && s.sent[i].seqNum == i % TWO64
          && s.sent[i].drops == 0 && |s.sent[i].packets| <= 500)
    && PacketsIn(s.sent) + s.batch == s.dequeued
  }

  lemma FlushKeeps<P>(c: Codec<Batch<P>>, id: string, s: Agent<P>, force: bool, w: Write)
    requires AgentInv(c, id, s.(open := false)) && s.torn == []
    ensures
      var t := Flush(c, id, s, force, w);
      && AgentInv(c, id, t.(open := false))
      && (t.open ==> s.open && t.torn == [] && (t.batch == [] || t == s))
  {
    if s.batch != [] || force {
      if w == Complete {
        SendKeeps(c, id, s);
      }
    }
  }

  lemma SendKeeps<P>(c: Codec<Batch<P>>, id: string, s: Agent<P>)
    requires AgentInv(c, id, s.(open := false)) && s.torn == []
    ensures AgentInv(c, id, s.(open := false, wire := s.wire + Encode(c.enc(Pending(id, s))),
                               sent := s.sent + [Pending(id, s)], seqNum := (s.seqNum + 1) % TWO64, batch := []))
  {
    var sent := s.sent + [Pending(id, s)];
    assert sent[..|sent| - 1] == s.sent;
    assert s.wire == Frames(c, s.sent);
    assert PacketsIn(sent) + [] == s.dequeued;
    assert Frames(c, sent) + [] == s.wire + Encode(c.enc(Pending(id, s)));
    NextSeqNum(|s.sent|);
  }

  lemma NextSeqNum(n: nat)
    ensures (n % TWO64 + 1) % TWO64 == (n + 1) % TWO64
  {
    ModUnique(n % TWO64 + 1, TWO64, if n % TWO64 + 1 == TWO64 then 1 else 0, (n % TWO64 + 1) % TWO64);
    var q := n / TWO64;
    if n % TWO64 + 1 == TWO64 {
      ModUnique(n + 1, TWO64, q + 1, 0);
    } else {
      ModUnique(n + 1, TWO64, q, n % TWO64 + 1);
    }
  }

  /** Main agent theorem: over every run of the select loop, batch numbers are 0, 1, 2, ...
      (in uint64), no batch has more than 500 packets, and the batches sent plus the one
      being filled are exactly the dequeued packets, in order. */
  lemma {:induction false} AgentRunKeeps<P>(c: Codec<Batch<P>>, id: string, es: seq<Event<P>>)
    ensures AgentInv(c, id, AgentRun(c, id, es))
    decreases |es|
  {
    if es != [] {
      var front, e := es[..|es| - 1], es[|es| - 1];
      AgentRunKeeps(c, id, front);
      TurnKeeps(c, id, AgentRun(c, id, front), e);
    }
  }

  lemma TurnKeeps<P>(c: Codec<Batch<P>>, id: string, s: Agent<P>, e: Event<P>)
    requires AgentInv(c, id, s)
    ensures AgentInv(c, id, Turn(c, id, s, e))
  {
    if s.open {
      match e
      case Packet(p, w) =>
        var t := s.(batch := s.batch + [p], dequeued := s.dequeued + [p]);
        assert PacketsIn(s.sent) + (s.batch + [p]) == s.dequeued + [p];
        if |t.batch| >= MAX_BATCH { FlushKeeps(c, id, t, false, w); }
      case Tick(w) => FlushKeeps(c, id, s, false, w);
      case Heartbeat(w) => FlushKeeps(c, id, s, true, w);
      case Stop(w) => FlushKeeps(c, id, s, false, w);
    }
  }

  // ----- what one event of the loop does

  /** The event makes the loop write: a packet that fills the batch, a tick or a stop with
      anything to send, and every heartbeat. */
  predicate Due<P>(s: Agent<P>, e: Event<P>) {
    match e
    case Packet(_, _) => |s.batch| == 499
    case Heartbeat(_) => true
    case _ => s.batch != []
  }

  /** One turn, exactly. A write that is due and completes sends everything held so far as
      the next batch; otherwise all of it stays held. The loop ends with a stop or with a
      broken write, and then nothing happens any more. */
  lemma TurnExactly<P>(c: Codec<Batch<P>>, id: string, s: Agent<P>, e: Event<P>)
    requires |s.batch| < 500
    ensures
      var t := Turn(c, id, s, e);
      var held := if e.Packet? then s.batch + [e.p] else s.batch;
      && (!s.open ==> t == s)
      && (s.open && Due(s, e) && e.w == Complete ==> t.sent == s.sent + [Batch(id, s.seqNum, 0, held)] && t.batch == [])
      && (s.open && !(Due(s, e) && e.w == Complete) ==> t.sent == s.sent && t.batch == held)
      && (s.open ==> (t.open <==> !e.Stop? && !(Due(s, e) && e.w.Broken?)))
      && (s.open ==> t.dequeued == if e.Packet? then s.dequeued + [e.p] else s.dequeued)
  {
  }

  // ----- central's receive loop

  /** The batches central decodes before the first read error. */
  function Receive<P>(c: Codec<Batch<P>>, stream: seq<byte>): seq<Batch<P>>
    decreases |stream|
  {
    match ReadFrame(stream)
    case Failed(_) => []
    case Got(payload, rest) =>
      match c.dec(payload)
      case None => []
      case Some(b) => [b] + Receive(c, rest)
  }

  /** The loop itself, on a connection that splits the stream as it likes. */
  method ReceiveLoop<P>(c: Codec<Batch<P>>, conn: Conn) returns (batches: seq<Batch<P>>)
    modifies conn
    ensures batches == Receive(c, old(conn.Stream()))
  {
    batches := [];
    ghost var stream := conn.Stream();
    ghost var all := Receive(c, stream);
    while true
      invariant stream == conn.Stream() && batches + Receive(c, stream) == all
      decreases |stream|
    {
      var r := conn.ReadMsg();
      ReceiveByStep(c, stream, r);
      if r.Failed? {
        return;
      }
      var b := c.dec(r.payload);
      if b.None? {
        return;
      }
      Move(batches, b.value, Receive(c, r.rest));
      batches, stream := batches + [b.value], r.rest;
    }
  }

  lemma Move<T>(a: seq<T>, x: T, b: seq<T>)
    ensures a + ([x] + b) == (a + [x]) + b
  {
  }

  lemma ReceiveByStep<P>(c: Codec<Batch<P>>, stream: seq<byte>, r: ReadResult)
    requires r == ReadFrame(stream)
    ensures r.Failed? ==> Receive(c, stream) == []
    ensures r.Got? && c.dec(r.payload).None? ==> Receive(c, stream) == []
    ensures r.Got? && c.dec(r.payload).Some? ==>
              Receive(c, stream) == [c.dec(r.payload).value] + Receive(c, r.rest) && |r.rest| < |stream|
  {
  }

  ghost predicate InBounds<P>(c: Codec<Batch<P>>, b: Batch<P>) { 1 <= |c.enc(b)| <= MAX_MSG }

  lemma {:induction false} FramesHead<P>(c: Codec<Batch<P>>, bs: seq<Batch<P>>)
    requires bs != []
    ensures Frames(c, bs) == Encode(c.enc(bs[0])) + Frames(c, bs[1..])
    decreases |bs|
  {
    var front := bs[..|bs| - 1];
    if front == [] {
      assert bs[1..] == [];
      assert Frames(c, bs) == [] + Encode(c.enc(bs[0]));
    } else {
      FramesHead(c, front);
      assert front[1..] == bs[1..][..|bs| - 2];
      assert bs[1..] != [] && bs[1..][|bs| - 2] == bs[|bs| - 1];
    }
  }

  lemma ReceiveWhole<P(!new)>(c: Codec<Batch<P>>, b: Batch<P>, rest: seq<byte>)
    requires Invertible(c) && InBounds(c, b)
    ensures Receive(c, Encode(c.enc(b)) + rest) == [b] + Receive(c, rest)
  {
    FrameRoundTrip(c.enc(b), rest);
    assert c.dec(c.enc(b)) == Some(b);
  }

  lemma ReceiveCut<P>(c: Codec<Batch<P>>, b: Batch<P>, m: nat)
    requires InBounds(c, b) && m < |Encode(c.enc(b))|
    ensures Receive(c, Encode(c.enc(b))[..m]) == []
  {
    CutFrameFails(c.enc(b), m);
  }

  /** What central makes of the first frame of a stream that ends after m bytes. */
  lemma ReceiveHead<P(!new)>(c: Codec<Batch<P>>, bs: seq<Batch<P>>, m: nat)
    requires bs != [] && Invertible(c) && InBounds(c, bs[0]) && m <= |Frames(c, bs)|
    ensures |Frames(c, bs)| == |Encode(c.enc(bs[0]))| + |Frames(c, bs[1..])|
    ensures m < |Encode(c.enc(bs[0]))| ==> Receive(c, Frames(c, bs)[..m]) == []
    ensures m >= |Encode(c.enc(bs[0]))| ==>
              Receive(c, Frames(c, bs)[..m])
              == [bs[0]] + Receive(c, Frames(c, bs[1..])[..m - |Encode(c.enc(bs[0]))|])
  {
    FramesHead(c, bs);
    var frame, tail := Encode(c.enc(bs[0])), Frames(c, bs[1..]);
    if m < |frame| {
      assert (frame + tail)[..m] == frame[..m];
      ReceiveCut(c, bs[0], m);
    } else {
      assert (frame + tail)[..m] == frame + tail[..m - |frame|];
      ReceiveWhole(c, bs[0], tail[..m - |frame|]);
    }
  }

  lemma PrefixHead<T>(s: seq<T>, j: nat)
    requires j < |s|
    ensures s[..j + 1] == [s[0]] + s[1..][..j]
  {
  }

  /** Main wire theorem: wherever the connection ends, central decodes exactly the batches
      whose frames came through whole, in order. */
  lemma {:induction false} ReceivePrefix<P(!new)>(c: Codec<Batch<P>>, bs: seq<Batch<P>>, m: nat) returns (k: nat)
    requires Invertible(c) && forall i :: 0 <= i < |bs| ==> InBounds(c, bs[i])
    requires m <= |Frames(c, bs)|
    ensures k <= |bs| && Receive(c, Frames(c, bs)[..m]) == bs[..k]
    ensures m == |Frames(c, bs)| <==> k == |bs|
    decreases |bs|
  {
    k := 0;
    if bs != [] {
      ReceiveHead(c, bs, m);
      var n, tail := |Encode(c.enc(bs[0]))|, bs[1..];
      if m >= n {
        assert forall i :: 0 <= i < |tail| ==> tail[i] == bs[i + 1];
        var j := ReceivePrefix(c, tail, m - n);
        k := j + 1;
        PrefixHead(bs, j);
      }
    }
  }

  /** Whatever follows the whole frames, once it cannot be read as a batch: the loop ends
      there, and what it decoded before stays. */
  lemma {:induction false} ReceiveUntilError<P(!new)>(c: Codec<Batch<P>>, bs: seq<Batch<P>>, tail: seq<byte>)
    requires Invertible(c) && forall i :: 0 <= i < |bs| ==> InBounds(c, bs[i])
    requires ReadFrame(tail).Got? ==> c.dec(ReadFrame(tail).payload) == None
    ensures Receive(c, Frames(c, bs) + tail) == bs
    decreases |bs|
  {
    if bs == [] {
      assert Frames(c, bs) + tail == tail;
    } else {
      var more := bs[1..];
      assert forall i :: 0 <= i < |more| ==> more[i] == bs[i + 1];
      ReceiveUntilError(c, more, tail);
      ReceiveFirst(c, bs, tail);
      assert bs == [bs[0]] + more;
    }
  }

  lemma ReceiveFirst<P(!new)>(c: Codec<Batch<P>>, bs: seq<Batch<P>>, tail: seq<byte>)
    requires bs != [] && Invertible(c) && InBounds(c, bs[0])
    ensures Receive(c, Frames(c, bs) + tail) == [bs[0]] + Receive(c, Frames(c, bs[1..]) + tail)
  {
    FramesHead(c, bs);
    Regroup(Encode(c.enc(bs[0])), Frames(c, bs[1..]), tail);
    ReceiveWhole(c, bs[0], Frames(c, bs[1..]) + tail);
  }

  lemma Regroup(a: seq<byte>, b: seq<byte>, c: seq<byte>)
    ensures (a + b) + c == a + (b + c)
  {
  }

  // ----- central's queue

  /** The channel into the capture engine; `received`, `enqueued`, `consumed` are history. */
  datatype Central<P> = Central(queue: seq<P>, dropped: nat, received: seq<P>, enqueued: seq<P>, consumed: seq<P>)

  datatype QueueEvent<P> = Offer(p: P) | Consume

  function QueueStep<P>(cap: nat, s: Central<P>, e: QueueEvent<P>): Central<P> {
    match e
    case Offer(p) =>
      if |s.queue| < cap then
        s.(queue := s.queue + [p], received := s.received + [p], enqueued := s.enqueued + [p])
      else s.(dropped := s.dropped + 1, received := s.received + [p])
    case Consume => if s.queue == [] then s else s.(queue := s.queue[1..], consumed := s.consumed + [s.queue[0]])
  }

  function QueueFrom<P>(cap: nat, s: Central<P>, es: seq<QueueEvent<P>>): Central<P> {
    if es == [] then s else QueueStep(cap, QueueFrom(cap, s, es[..|es| - 1]), es[|es| - 1])
  }

  function QueueRun<P>(cap: nat, es: seq<QueueEvent<P>>): Central<P> { QueueFrom(cap, Central([], 0, [], [], []), es) }

  /** The packets a run of the queue was offered. */
  function Offered<P>(es: seq<QueueEvent<P>>): seq<P> {
    if es == [] then []
    else Offered(es[..|es| - 1]) + (if es[|es| - 1].Offer? then [es[|es| - 1].p] else [])
  }

  /** `a` is `b` with some elements left out. */
  ghost predicate Subsequence<P>(a: seq<P>, b: seq<P>)
    decreases |b|
  {
    if a == [] then true
    else if b == [] then false
    else
      || (a[|a| - 1] == b[|b| - 1] && Subsequence(a[..|a| - 1], b[..|b| - 1]))
      || Subsequence(a, b[..|b| - 1])
  }

  /** handleAgent's loop over one batch, with the consumer running in between: up to
      `eaten[i]` packets leave the queue before packet i is offered. The loop is a run of
      the queue that offers exactly the batch, and it counts the drops. */
  method OfferBatch<P>(cap: nat, s: Central<P>, packets: seq<P>, eaten: seq<nat>)
    returns (t: Central<P>, dropped: nat, ghost es: seq<QueueEvent<P>>)
    requires |eaten| == |packets|
    ensures t == QueueFrom(cap, s, es) && Offered(es) == packets
    ensures t.dropped == s.dropped + dropped
    ensures |t.enqueued| - |s.enqueued| + dropped == |packets|
    ensures |s.queue| + |packets| <= cap ==> dropped == 0
  {
    t, dropped, es := s, 0, [];
    for i := 0 to |packets|
      invariant t == QueueFrom(cap, s, es) && Offered(es) == packets[..i]
      invariant t.dropped == s.dropped + dropped
      invariant |t.enqueued| - |s.enqueued| + dropped == i
      invariant |s.queue| + |packets| <= cap ==> dropped == 0 && |t.queue| <= |s.queue| + i
    {
      var k := eaten[i];
      while k > 0 && t.queue != []
        invariant t == QueueFrom(cap, s, es) && Offered(es) == packets[..i]
        invariant t.dropped == s.dropped + dropped
        invariant |t.enqueued| - |s.enqueued| + dropped == i
        invariant |s.queue| + |packets| <= cap ==> dropped == 0 && |t.queue| <= |s.queue| + i
      {
        t := t.(queue := t.queue[1..], consumed := t.consumed + [t.queue[0]]);
        assert (es + [Consume])[..|es|] == es;
        es := es + [Consume];
        k := k - 1;
      }
      var p := packets[i];
      if |t.queue| < cap {
        t := t.(queue := t.queue + [p], received := t.received + [p], enqueued := t.enqueued + [p]);
      } else {
        dropped := dropped + 1;
        t := t.(dropped := t.dropped + 1, received := t.received + [p]);
      }
      assert (es + [Offer(p)])[..|es|] == es;
      es := es + [Offer(p)];
    }
  }

  ghost predicate QueueInv<P>(cap: nat, s: Central<P>) {
    && Subsequence(s.enqueued, s.received)
    && |s.enqueued| + s.dropped == |s.received|
    && s.consumed + s.queue == s.enqueued
    && |s.queue| <= cap
  }

  lemma QueueStepKeeps<P>(cap: nat, s: Central<P>, e: QueueEvent<P>)
    requires QueueInv(cap, s)
    ensures QueueInv(cap, QueueStep(cap, s, e))
  {
    match e
    case Offer(p) => if |s.queue| < cap { EnqueueKeeps(cap, s, p); } else { DropKeeps(cap, s, p); }
    case Consume =>
      if s.queue != [] {
        assert s.consumed + [s.queue[0]] + s.queue[1..] == s.consumed + s.queue;
      }
  }

  lemma EnqueueKeeps<P>(cap: nat, s: Central<P>, p: P)
    requires QueueInv(cap, s) && |s.queue| < cap
    ensures QueueInv(cap, QueueStep(cap, s, Offer(p)))
  {
    var t := QueueStep(cap, s, Offer(p));
    assert t.received[..|t.received| - 1] == s.received && t.enqueued[..|t.enqueued| - 1] == s.enqueued;
    assert s.consumed + (s.queue + [p]) == s.consumed + s.queue + [p];
  }

  lemma DropKeeps<P>(cap: nat, s: Central<P>, p: P)
    requires QueueInv(cap, s) && |s.queue| >= cap
    ensures QueueInv(cap, QueueStep(cap, s, Offer(p)))
  {
    var t := QueueStep(cap, s, Offer(p));
    assert t.received[..|t.received| - 1] == s.received;
  }

  /** Main queue theorem: whatever the consumer does, what central enqueued is an ordered
      subsequence of what it received, enqueued plus dropped is received, the queue stays
      within its bound, and consumers get the enqueued packets in order. */
  lemma {:induction false} QueueAccounting<P>(cap: nat, es: seq<QueueEvent<P>>)
    ensures QueueInv(cap, QueueRun(cap, es)) && QueueRun(cap, es).received == Offered(es)
    decreases |es|
  {
    if es != [] {
      var front := es[..|es| - 1];
      QueueAccounting(cap, front);
      QueueStepKeeps(cap, QueueRun(cap, front), es[|es| - 1]);
    }
  }

  /** How many offers of a run found the queue full. */
  function OffersAtFull<P>(cap: nat, es: seq<QueueEvent<P>>): nat {
    if es == [] then 0
    else
      var front := es[..|es| - 1];
      OffersAtFull(cap, front) + (if es[|es| - 1].Offer? && |QueueRun(cap, front).queue| == cap then 1 else 0)
  }

  /** The packets offered while the queue was not full, in order. */
  function OffersWithRoom<P>(cap: nat, es: seq<QueueEvent<P>>): seq<P> {
    if es == [] then []
    else
      var front := es[..|es| - 1];
      OffersWithRoom(cap, front) +
      (if es[|es| - 1].Offer? && |QueueRun(cap, front).queue| != cap then [es[|es| - 1].p] else [])
  }

  /** How many times the consumer found the queue non-empty. */
  function Takes<P>(cap: nat, es: seq<QueueEvent<P>>): nat {
    if es == [] then 0
    else
      var front := es[..|es| - 1];
      Takes(cap, front) + (if es[|es| - 1].Consume? && QueueRun(cap, front).queue != [] then 1 else 0)
  }

  /** A packet is dropped exactly when it is offered to a full queue, every other one is
      enqueued, and the consumer gets one whenever there is one. */
  lemma {:induction false} DropsExactly<P>(cap: nat, es: seq<QueueEvent<P>>)
    ensures
      var q := QueueRun(cap, es);
      && q.dropped == OffersAtFull(cap, es) && q.enqueued == OffersWithRoom(cap, es)
      && |q.consumed| == Takes(cap, es)
    decreases |es|
  {
    if es != [] {
      var front := es[..|es| - 1];
      DropsExactly(cap, front);
      QueueAccounting(cap, front);
    }
  }

  // ----- end to end

  lemma {:induction false} PacketsPrefix<P>(bs: seq<Batch<P>>, k: nat)
    requires k <= |bs|
    ensures PacketsIn(bs[..k]) <= PacketsIn(bs)
    decreases |bs|
  {
    if k == |bs| {
      assert bs[..k] == bs;
    } else {
      var front := bs[..|bs| - 1];
      PacketsPrefix(front, k);
      assert front[..k] == bs[..k];
    }
  }

  lemma FramesOfTorn<P>(c: Codec<Batch<P>>, id: string, s: Agent<P>)
    requires AgentInv(c, id, s)
    ensures s.wire <= Frames(c, s.sent + [Pending(id, s)])
    ensures |s.wire| < |Frames(c, s.sent + [Pending(id, s)])|
  {
    var all := s.sent + [Pending(id, s)];
    assert all[..|all| - 1] == s.sent;
    var frame := Encode(c.enc(Pending(id, s)));
    assert Frames(c, all) == Frames(c, s.sent) + frame;
    assert s.torn <= frame;
  }

  /** What a connection guarantees about the batches central decoded from an agent and
      about the queue it offered their packets to. */
  ghost predicate Delivered<P>(a: Agent<P>, got: seq<Batch<P>>, q: Central<P>) {
    && got <= a.sent
    && (forall i :: 0 <= i < |got| ==> got[i].seqNum == i % TWO64 && |got[i].packets| <= 500)
    && q.received <= a.dequeued
    && Subsequence(q.enqueued, q.received)
    && |q.enqueued| + q.dropped == |q.received|
  }

  /** Every frame the agent wrote, or began to write, is within the size bounds. */
  ghost predicate FramesFit<P>(c: Codec<Batch<P>>, id: string, a: Agent<P>) {
    && (a.torn != [] ==> InBounds(c, Pending(id, a)))
    && forall i :: 0 <= i < |a.sent| ==> InBounds(c, a.sent[i])
  }

  lemma BatchesArrive<P(!new)>(
    c: Codec<Batch<P>>, id: string, es: seq<Event<P>>, m: nat, cap: nat, qs: seq<QueueEvent<P>>)
    requires Invertible(c) && FramesFit(c, id, AgentRun(c, id, es)) && m <= |AgentRun(c, id, es).wire|
    requires Offered(qs) == PacketsIn(Receive(c, AgentRun(c, id, es).wire[..m]))
    ensures Delivered(AgentRun(c, id, es), Receive(c, AgentRun(c, id, es).wire[..m]), QueueRun(cap, qs))
    ensures var a := AgentRun(c, id, es);
            m == |a.wire| && a.torn == [] ==> Receive(c, a.wire[..m]) == a.sent
  {
    var a := AgentRun(c, id, es);
    AgentRunKeeps(c, id, es);
    var k := ReceiveFromAgent(c, id, a, m);
    PacketsPrefix(a.sent, k);
    QueueAccounting(cap, qs);
  }

  /** How both ends are set up: the codecs they share, and central's token and engine. */
  datatype Setup<!P> = Setup(
    hellos: Codec<Hello>, acks: Codec<HelloAck>, plain: Codec<Batch<P>>, z: Codec<seq<byte>>, token: string, engine: Engine)

  ghost predicate Sound<P(!new)>(u: Setup<P>) {
    Invertible(u.hellos) && Invertible(u.acks) && Invertible(u.plain) && Invertible(u.z)
  }

  /** connect up to its loop: the batch codec the agent takes from central's reply. */
  function AgentCodec<P>(u: Setup<P>, reply: seq<byte>): Option<Codec<Batch<P>>> {
    match ReadFrame(reply)
    case Failed(_) => None
    case Got(payload, _) =>
      match u.acks.dec(payload)
      case None => None
      case Some(ack) => if ack.ok then Some(BatchCodec(u.plain, u.z, ack.useCompress)) else None
  }

  /** What central writes back, and the batches it decodes, given all the bytes the agent's
      side of the connection delivers. */
  function CentralSide<P>(u: Setup<P>, stream: seq<byte>): (seq<byte>, seq<Batch<P>>) {
    match ReadFrame(stream)
    case Failed(_) => ([], [])
    case Got(payload, rest) =>
      match u.hellos.dec(payload)
      case None => ([], [])
      case Some(hello) =>
        var ack := Answer(u.token, hello, u.engine);
        (Encode(u.acks.enc(ack)), if ack.ok then Receive(BatchCodec(u.plain, u.z, hello.canCompress), rest) else [])
  }

  lemma CodecInvertible<P(!new)>(u: Setup<P>, compress: bool)
    requires Sound(u)
    ensures Invertible(BatchCodec(u.plain, u.z, compress))
  {
    if compress { CompressedInvertible(u.plain, u.z); }
  }

  /** A stream that starts with a whole handshake: what each end makes of it. */
  lemma Handshaken<P(!new)>(u: Setup<P>, hello: Hello, rest: seq<byte>)
    requires Sound(u) && 1 <= |u.hellos.enc(hello)| <= MAX_MSG
    requires 1 <= |u.acks.enc(Answer(u.token, hello, u.engine))| <= MAX_MSG
    ensures
      var ack, c := Answer(u.token, hello, u.engine), BatchCodec(u.plain, u.z, hello.canCompress);
      var (reply, got) := CentralSide(u, Encode(u.hellos.enc(hello)) + rest);
      && AgentCodec(u, reply) == (if ack.ok then Some(c) else None)
      && got == if ack.ok then Receive(c, rest) else []
  {
    var ack := Answer(u.token, hello, u.engine);
    HandshakeAgrees(u.hellos, u.acks, hello, u.token, u.engine, u.plain, u.z, rest, []);
    assert Encode(u.acks.enc(ack)) + [] == Encode(u.acks.enc(ack));
    FrameRoundTrip(u.hellos.enc(hello), rest);
    FrameRoundTrip(u.acks.enc(ack), []);
    assert u.hellos.dec(u.hellos.enc(hello)) == Some(hello) && u.acks.dec(u.acks.enc(ack)) == Some(ack);
  }

  /** Main end-to-end theorem over one connection, handshake included. Central goes by the
      agent's offer and the agent by central's answer. A refused agent sends nothing and
      nothing is decoded. For an accepted one, for every run of its loop (with writes that
      may break anywhere), every point m at which its byte stream ends, and every way the
      receiver's queue is drained: central decodes a prefix of the sent batches, numbered
      0, 1, 2, ...; its received packets are a prefix of the packets the agent dequeued;
      it enqueues an ordered subsequence of them, and enqueued + dropped = received. If
      the whole stream of an unbroken agent arrives, every sent batch is decoded. */
  lemma EndToEnd<P(!new)>(
    u: Setup<P>, hello: Hello, es: seq<Event<P>>, m: nat, cap: nat, qs: seq<QueueEvent<P>>, c: Codec<Batch<P>>)
    requires Sound(u) && 1 <= |u.hellos.enc(hello)| <= MAX_MSG
    requires 1 <= |u.acks.enc(Answer(u.token, hello, u.engine))| <= MAX_MSG
    requires
      var a := AgentRun(c, hello.agentID, es);
      && FramesFit(c, hello.agentID, a) && m <= |a.wire|
      && Offered(qs) == PacketsIn(CentralSide(u, Encode(u.hellos.enc(hello)) + a.wire[..m]).1)
    ensures
      var a := AgentRun(c, hello.agentID, es);
      var (reply, got) := CentralSide(u, Encode(u.hellos.enc(hello)) + a.wire[..m]);
      && (AgentCodec(u, reply) == None <==> !Answer(u.token, hello, u.engine).ok)
      && (AgentCodec(u, reply) == None ==> got == [])
      && (AgentCodec(u, reply) == Some(c) ==>
            && Delivered(a, got, QueueRun(cap, qs))
            && (m == |a.wire| && a.torn == [] ==> got == a.sent))
  {
    var a := AgentRun(c, hello.agentID, es);
    Handshaken(u, hello, a.wire[..m]);
    var (reply, got) := CentralSide(u, Encode(u.hellos.enc(hello)) + a.wire[..m]);
    if AgentCodec(u, reply) == Some(c) {
      CodecInvertible(u, hello.canCompress);
      BatchesArrive(c, hello.agentID, es, m, cap, qs);
    }
  }

  lemma ReceiveFromAgent<P(!new)>(c: Codec<Batch<P>>, id: string, a: Agent<P>, m: nat) returns (k: nat)
    requires AgentInv(c, id, a) && Invertible(c) && m <= |a.wire|
    requires a.torn != [] ==> InBounds(c, Pending(id, a))
    requires forall i :: 0 <= i < |a.sent| ==> InBounds(c, a.sent[i])
    ensures k <= |a.sent| && Receive(c, a.wire[..m]) == a.sent[..k]
    ensures m == |a.wire| && a.torn == [] ==> k == |a.sent|
  {
    if a.torn == [] {
      assert a.wire == Frames(c, a.sent);
      k := ReceivePrefix(c, a.sent, m);
    } else {
      var all := a.sent + [Pending(id, a)];
      FramesOfTorn(c, id, a);
      assert a.wire[..m] == Frames(c, all)[..m];
      k := ReceivePrefix(c, all, m);
      assert all[..k] == a.sent[..k];
    }
  }
}
