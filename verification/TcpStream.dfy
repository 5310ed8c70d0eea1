/** One reassembled TCP connection: both directions share one framer, and every message
    it cuts off is attributed to the direction whose bytes completed it. */
module TcpStream {
  import opened Bytes
  import opened Framing
  import opened Framers

  datatype Endpoint = Endpoint(ip: string, port: nat)

  datatype Direction = ToServer | ToClient

  /** One call of the message callback. */
  datatype Delivery = Delivery(src: Endpoint, dst: Endpoint, payload: seq<byte>)

  /** One ReassembledSG call: `gap` says that bytes were skipped before `data`. */
  datatype Segment = Segment(dir: Direction, data: seq<byte>, gap: bool)

  function Attribute(client: Endpoint, server: Endpoint, dir: Direction, msgs: seq<seq<byte>>): (r: seq<Delivery>)
    ensures |r| == |msgs|
  {
    seq(|msgs|, i requires 0 <= i < |msgs| =>
      if dir == ToServer then Delivery(client, server, msgs[i]) else Delivery(server, client, msgs[i]))
  }

  /** The framer's buffer, the callbacks made so far, and whether a call failed. */
  datatype StreamState = StreamState(buf: seq<byte>, out: seq<Delivery>, dead: bool)

  /** The effect of one ReassembledSG call. */
  function OnSegment(f: Stepper, client: Endpoint, server: Endpoint, s: StreamState, e: Segment): StreamState {
    if s.dead || e.data == [] then s
    else if e.gap then s.(buf := [])
    else
      var r := Frame(f, s.buf + e.data);
      if r.fault then s.(buf := r.rest, dead := true)
      else StreamState(r.rest, s.out + Attribute(client, server, e.dir, Messages(r.blocks)), false)
  }

  class Stream {
    const client: Endpoint
    const server: Endpoint
    const framer: Framer
    var out: seq<Delivery>
    var dead: bool

    ghost function View(): StreamState
      reads this, framer
    {
      StreamState(framer.buf, out, dead)
    }

    constructor (client: Endpoint, server: Endpoint, strings: Strings, proto: Protocol)
      ensures this.client == client && this.server == server && fresh(framer)
      ensures framer.strings == strings && framer.proto == proto
      ensures View() == StreamState([], [], false)
    {
      this.client, this.server := client, server;
      framer := new Framer(strings, proto);
      out, dead := [], false;
    }

    /** Invokes the callback for each message. */
    method CallBack(dir: Direction, msgs: seq<seq<byte>>)
      modifies `out
      ensures out == old(out) + Attribute(client, server, dir, msgs)
    {
      ghost var calls := Attribute(client, server, dir, msgs);
      for i := 0 to |msgs|
        invariant out == old(out) + calls[..i]
      {
        var src, dst := client, server;
        if dir == ToClient {
          src, dst := server, client;
        }
        out := out + [Delivery(src, dst, msgs[i])];
        assert calls[..i + 1] == calls[..i] + [calls[i]];
      }
      assert calls[..|msgs|] == calls;
    }

    method ReassembledSG(e: Segment)
      modifies this, framer
      ensures View() == OnSegment(StepOf(framer.strings, framer.proto), client, server, old(View()), e)
    {
      if dead || |e.data| == 0 {
        return;
      }
      if e.gap {
        var _ := framer.Flush();
        return;
      }
      var msgs, ok := framer.Feed(e.data);
      if !ok {
        dead := true;
        return;
      }
      CallBack(e.dir, msgs);
    }

    /** The remaining partial message goes out as if the client had sent it. */
    method ReassemblyComplete()
      modifies this, framer
      ensures framer.buf == [] && dead == old(dead)
      ensures out == old(out) + (if old(framer.buf) != [] then [Delivery(client, server, old(framer.buf))] else [])
    {
      var remaining := framer.Flush();
      if |remaining| > 0 {
        out := out + [Delivery(client, server, remaining)];
      }
    }
  }

  function Run(f: Stepper, client: Endpoint, server: Endpoint, es: seq<Segment>): StreamState {
    if es == [] then StreamState([], [], false)
    else OnSegment(f, client, server, Run(f, client, server, es[..|es| - 1]), es[|es| - 1])
  }

  // ----- gaps

  /** Main gap theorem: a gap drops its own data and the partial message before it, and
      what comes later is delivered as if the stream had started there. */
  lemma {:induction false} GapRestarts(
    f: Stepper, client: Endpoint, server: Endpoint, es: seq<Segment>, gap: Segment, later: seq<Segment>)
    requires gap.gap && gap.data != [] && !Run(f, client, server, es).dead
    ensures
      var s, t := Run(f, client, server, es), Run(f, client, server, later);
      Run(f, client, server, es + [gap] + later) == StreamState(t.buf, s.out + t.out, t.dead)
    decreases |later|
  {
    var all := es + [gap] + later;
    var s := Run(f, client, server, es);
    if later == [] {
      assert all[..|all| - 1] == es && all[|all| - 1] == gap;
      assert s.out + [] == s.out;
    } else {
      var front, e := later[..|later| - 1], later[|later| - 1];
      GapRestarts(f, client, server, es, gap, front);
      assert all[..|all| - 1] == es + [gap] + front && all[|all| - 1] == e;
      OutputShifts(f, client, server, s.out, Run(f, client, server, front), e);
    }
  }

  /** What was delivered before does not matter to a segment. */
  lemma OutputShifts(f: Stepper, client: Endpoint, server: Endpoint, out: seq<Delivery>, t: StreamState, e: Segment)
    ensures
      var u := OnSegment(f, client, server, t, e);
      OnSegment(f, client, server, StreamState(t.buf, out + t.out, t.dead), e) == StreamState(u.buf, out + u.out, u.dead)
  {
    if !t.dead && e.data != [] && !e.gap {
      var r := Frame(f, t.buf + e.data);
      var more := Attribute(client, server, e.dir, Messages(r.blocks));
      assert out + (t.out + more) == out + t.out + more;
    }
  }

  // ----- the shared framer

  /** All bytes, of either direction, in order of delivery. */
  function AllBytes(es: seq<Segment>): seq<byte> {
    if es == [] then [] else AllBytes(es[..|es| - 1]) + es[|es| - 1].data
  }

  function Payloads(out: seq<Delivery>): (r: seq<seq<byte>>)
    ensures |r| == |out|
  {
    seq(|out|, i requires 0 <= i < |out| => out[i].payload)
  }

  /** The stream has delivered the framing of `bytes`. */
  ghost predicate Frames(f: Stepper, s: StreamState, bytes: seq<byte>) {
    var r := Frame(f, bytes);
    s.dead == r.fault && (!r.fault ==> s.buf == r.rest && Payloads(s.out) == Messages(r.blocks))
  }

  lemma FramesMore(f: Stepper, client: Endpoint, server: Endpoint, s: StreamState, bytes: seq<byte>, e: Segment)
    requires Stable(f) && Frames(f, s, bytes) && !e.gap
    ensures Frames(f, OnSegment(f, client, server, s, e), bytes + e.data)
  {
    FrameAppend(f, bytes, e.data);
    var r := Frame(f, bytes);
    if e.data == [] {
      assert bytes + e.data == bytes;
    } else if !r.fault {
      var g := Frame(f, r.rest + e.data);
      MessagesAppend(r.blocks, g.blocks);
      PayloadsMore(s.out, Attribute(client, server, e.dir, Messages(g.blocks)));
      assert Payloads(Attribute(client, server, e.dir, Messages(g.blocks))) == Messages(g.blocks);
    }
  }

  lemma PayloadsMore(out: seq<Delivery>, more: seq<Delivery>)
    ensures Payloads(out + more) == Payloads(out) + Payloads(more)
  {
  }

  /** The directions share one framer: without gaps, the payloads delivered are the framing
      of the bytes of both, as they came, and the stream fails exactly if that framing does. */
  lemma {:induction false} SharedFraming(f: Stepper, client: Endpoint, server: Endpoint, es: seq<Segment>)
    requires Stable(f) && f([]) == Wait && forall i :: 0 <= i < |es| ==> !es[i].gap
    ensures Frames(f, Run(f, client, server, es), AllBytes(es))
    decreases |es|
  {
    if es != [] {
      var front, e := es[..|es| - 1], es[|es| - 1];
      assert forall i :: 0 <= i < |front| ==> front[i] == es[i];
      SharedFraming(f, client, server, front);
      FramesMore(f, client, server, Run(f, client, server, front), AllBytes(front), e);
    }
  }

  // ----- attribution over whole runs

  /** The bytes one direction sent, in order. */
  function BytesOf(es: seq<Segment>, dir: Direction): seq<byte> {
    if es == [] then []
    else BytesOf(es[..|es| - 1], dir) + (if es[|es| - 1].dir == dir then es[|es| - 1].data else [])
  }

  datatype Last = Nobody | Sent(dir: Direction)

  /** Which direction delivered last. */
  function LastOf(es: seq<Segment>): Last {
    if es == [] then Nobody
    else if es[|es| - 1].data == [] then LastOf(es[..|es| - 1])
    else Sent(es[|es| - 1].dir)
  }

  /** No gap, and the buffer is empty whenever the delivering direction changes. */
  ghost predicate TurnsAtBoundaries(f: Stepper, client: Endpoint, server: Endpoint, es: seq<Segment>) {
    es != [] ==>
      var front, e := es[..|es| - 1], es[|es| - 1];
      && TurnsAtBoundaries(f, client, server, front)
      && !e.gap
      && (e.data != [] && LastOf(front).Sent? && LastOf(front).dir != e.dir ==>
            Run(f, client, server, front).buf == [])
  }

  /** The payloads delivered with the endpoints of one direction, in order. */
  function PayloadsOf(out: seq<Delivery>, client: Endpoint, server: Endpoint, dir: Direction): seq<seq<byte>> {
    if out == [] then []
    else PayloadsOf(out[..|out| - 1], client, server, dir) +
         (if Travels(out[|out| - 1], client, server, dir) then [out[|out| - 1].payload] else [])
  }

  predicate Travels(d: Delivery, client: Endpoint, server: Endpoint, dir: Direction) {
    match dir
    case ToServer => d.src == client && d.dst == server
    case ToClient => d.src == server && d.dst == client
  }

  lemma {:induction false} PayloadsAppend(a: seq<Delivery>, b: seq<Delivery>, client: Endpoint, server: Endpoint, dir: Direction)
    ensures PayloadsOf(a + b, client, server, dir) == PayloadsOf(a, client, server, dir) + PayloadsOf(b, client, server, dir)
    decreases |b|
  {
    if b == [] {
      assert a + b == a;
    } else {
      PayloadsAppend(a, b[..|b| - 1], client, server, dir);
      assert (a + b)[..|a + b| - 1] == a + b[..|b| - 1];
    }
  }

  lemma {:induction false} AttributePayloads(
    client: Endpoint, server: Endpoint, sent: Direction, msgs: seq<seq<byte>>, dir: Direction)
    requires client != server
    ensures PayloadsOf(Attribute(client, server, sent, msgs), client, server, dir) == if sent == dir then msgs else []
    decreases |msgs|
  {
    if msgs != [] {
      var front := msgs[..|msgs| - 1];
      AttributePayloads(client, server, sent, front, dir);
      var a := Attribute(client, server, sent, msgs);
      assert a[..|a| - 1] == Attribute(client, server, sent, front);
      assert msgs == front + [msgs[|msgs| - 1]];
    }
  }

  /** What holds for one direction after a run: its messages are its own framing, and the
      shared buffer is its partial message if it delivered last, else it has none. */
  ghost predicate Attributed(f: Stepper, client: Endpoint, server: Endpoint, es: seq<Segment>, dir: Direction) {
    var s, own := Run(f, client, server, es), Frame(f, BytesOf(es, dir));
    && !own.fault
    && PayloadsOf(s.out, client, server, dir) == Messages(own.blocks)
    && own.rest == (if LastOf(es) == Sent(dir) then s.buf else [])
    && (LastOf(es) == Nobody ==> s.buf == [])
  }

  /** Main attribution theorem: if no byte was skipped and the shared buffer is empty
      whenever the delivering direction changes, the messages attributed to a direction
      are exactly the framing of that direction's own bytes. */
  lemma {:induction false} DirectionAttribution(f: Stepper, client: Endpoint, server: Endpoint, es: seq<Segment>, dir: Direction)
    requires Stable(f) && f([]) == Wait && client != server
    requires TurnsAtBoundaries(f, client, server, es) && !Run(f, client, server, es).dead
    ensures Attributed(f, client, server, es, dir)
    decreases |es|
  {
    if es == [] {
    } else {
      var front, e := es[..|es| - 1], es[|es| - 1];
      DirectionAttribution(f, client, server, front, dir);
      if e.data == [] {
        assert BytesOf(es, dir) == BytesOf(front, dir);
      } else {
        SegmentAttribution(f, client, server, es, dir);
      }
    }
  }

  lemma SegmentAttribution(f: Stepper, client: Endpoint, server: Endpoint, es: seq<Segment>, dir: Direction)
    requires Stable(f) && client != server && es != [] && es[|es| - 1].data != []
    requires TurnsAtBoundaries(f, client, server, es) && !Run(f, client, server, es).dead
    requires Attributed(f, client, server, es[..|es| - 1], dir)
    ensures Attributed(f, client, server, es, dir)
  {
    var front, e := es[..|es| - 1], es[|es| - 1];
    var s := Run(f, client, server, front);
    var own := Frame(f, BytesOf(front, dir));
    var r := Frame(f, s.buf + e.data);
    var new_ := Attribute(client, server, e.dir, Messages(r.blocks));
    PayloadsAppend(s.out, new_, client, server, dir);
    AttributePayloads(client, server, e.dir, Messages(r.blocks), dir);
    if e.dir == dir {
      assert own.rest == s.buf;
      FrameAppend(f, BytesOf(front, dir), e.data);
      MessagesAppend(own.blocks, r.blocks);
    } else {
      assert BytesOf(es, dir) == BytesOf(front, dir);
    }
  }
}
