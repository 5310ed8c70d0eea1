/** Incremental framing in general. A framer is a step function that looks at the front
    of a byte buffer and waits for more bytes, skips one byte to resynchronise, cuts off
    a message, or fails; framing repeats the step until it has to wait. Everything here
    holds for any step function that is stable: once it does not wait, later bytes do
    not change what it does. */
module Framing {
  import opened Bytes

  datatype Step = Wait | Skip | Emit(k: nat) | Fault

  /** What a framer did to the bytes in front of its buffer, in order. */
  datatype Block = Message(bytes: seq<byte>) | Skipped(bytes: seq<byte>)

  datatype Framed = Framed(blocks: seq<Block>, rest: seq<byte>, fault: bool)

  /** A step that removes bytes removes some, and no more than there are. */
  predicate Legal(buf: seq<byte>, s: Step) {
    && (s.Emit? ==> 0 < s.k <= |buf|)
    && (s.Skip? ==> 0 < |buf|)
  }

  type Stepper = f: seq<byte> -> Step | forall b :: Legal(b, f(b)) witness (b => Wait)

  ghost predicate Stable(f: Stepper) {
    forall b, more :: f(b) != Wait ==> f(b + more) == f(b)
  }

  /** All steps until the framer has to wait: the blocks cut off and what stays. */
  function Frame(f: Stepper, buf: seq<byte>): (r: Framed)
    decreases |buf|
  {
    match f(buf)
    case Wait => Framed([], buf, false)
    case Fault => Framed([], buf, true)
    case Skip => Prepend(Skipped(buf[..1]), Frame(f, buf[1..]))
    case Emit(k) => Prepend(Message(buf[..k]), Frame(f, buf[k..]))
  }

  function Prepend(b: Block, r: Framed): Framed {
    r.(blocks := [b] + r.blocks)
  }

  function BlockBytes(bs: seq<Block>): seq<seq<byte>> {
    seq(|bs|, i requires 0 <= i < |bs| => bs[i].bytes)
  }

  function Messages(bs: seq<Block>): seq<seq<byte>> {
    if bs == [] then []
    else (if bs[0].Message? then [bs[0].bytes] else []) + Messages(bs[1..])
  }

  lemma {:induction false} MessagesAppend(a: seq<Block>, b: seq<Block>)
    ensures Messages(a + b) == Messages(a) + Messages(b)
  {
    if a == [] {
      assert a + b == b;
    } else {
      MessagesAppend(a[1..], b);
      assert (a + b)[1..] == a[1..] + b;
    }
  }

  /** The outcome of a `Feed` that already cut off `done`. */
  ghost function Resume(f: Stepper, done: seq<Block>, buf: seq<byte>): Framed {
    var r := Frame(f, buf);
    r.(blocks := done + r.blocks)
  }

  lemma ResumeStart(f: Stepper, buf: seq<byte>)
    ensures Resume(f, [], buf) == Frame(f, buf)
  {
    assert [] + Frame(f, buf).blocks == Frame(f, buf).blocks;
  }

  lemma ResumeStep(f: Stepper, done: seq<Block>, buf: seq<byte>)
    ensures
      match f(buf)
      case Wait => Resume(f, done, buf) == Framed(done, buf, false)
      case Fault => Resume(f, done, buf) == Framed(done, buf, true)
      case Skip => ResumeBy(f, done, buf, Skipped(buf[..1]))
      case Emit(k) => ResumeBy(f, done, buf, Message(buf[..k]))
  {
    match f(buf)
    case Wait => assert done + [] == done;
    case Fault => assert done + [] == done;
    case Skip => ResumeShift(f, done, buf, Skipped(buf[..1]));
    case Emit(k) => ResumeShift(f, done, buf, Message(buf[..k]));
  }

  ghost predicate ResumeBy(f: Stepper, done: seq<Block>, buf: seq<byte>, b: Block)
    requires |b.bytes| <= |buf|
  {
    && Resume(f, done, buf) == Resume(f, done + [b], buf[|b.bytes|..])
    && Messages(done + [b]) == Messages(done) + (if b.Message? then [b.bytes] else [])
  }

  lemma ResumeShift(f: Stepper, done: seq<Block>, buf: seq<byte>, b: Block)
    requires |b.bytes| <= |buf| && Frame(f, buf) == Prepend(b, Frame(f, buf[|b.bytes|..]))
    ensures ResumeBy(f, done, buf, b)
  {
    var r := Frame(f, buf[|b.bytes|..]);
    assert done + ([b] + r.blocks) == done + [b] + r.blocks;
    MessagesAppend(done, [b]);
    assert Messages([b]) == (if b.Message? then [b.bytes] else []) + Messages([b][1..]);
  }

  // ----- chunking independence

  /** What a framer does at the front of `buf`, whatever bytes follow. */
  datatype Front = Waits | Fails | CutsOff(b: Block)

  ghost predicate Cuts(f: Stepper, buf: seq<byte>, b: Block) {
    && 0 < |b.bytes| <= |buf| && b.bytes == buf[..|b.bytes|] && (b.Skipped? ==> |b.bytes| == 1)
    && Frame(f, buf) == Prepend(b, Frame(f, buf[|b.bytes|..]))
  }

  lemma FrontOf(f: Stepper, buf: seq<byte>, more: seq<byte>) returns (c: Front)
    requires Stable(f)
    ensures c.Waits? ==> Frame(f, buf) == Framed([], buf, false) && f(buf) == Wait
    ensures c.Fails? ==> Frame(f, buf) == Framed([], buf, true) && Frame(f, buf + more) == Framed([], buf + more, true)
    ensures c.CutsOff? ==> Cuts(f, buf, c.b) && Cuts(f, buf + more, c.b)
  {
    match f(buf)
    case Wait => c := Waits;
    case Fault => c := Fails;
    case Skip =>
      assert (buf + more)[..1] == buf[..1];
      c := CutsOff(Skipped(buf[..1]));
    case Emit(k) =>
      assert (buf + more)[..k] == buf[..k];
      c := CutsOff(Message(buf[..k]));
  }

  /** Framing a buffer and later more bytes is framing all of them. */
  lemma {:induction false} FrameAppend(f: Stepper, buf: seq<byte>, more: seq<byte>)
    requires Stable(f)
    ensures Appends(f, buf, more)
    decreases |buf|
  {
    var c := FrontOf(f, buf, more);
    match c
    case Waits => ResumeStart(f, buf + more);
    case Fails =>
    case CutsOff(b) =>
      FrameAppend(f, buf[|b.bytes|..], more);
      AppendAfterCut(f, buf, more, b);
  }

  /** What FrameAppend says of a buffer. */
  ghost predicate Appends(f: Stepper, buf: seq<byte>, more: seq<byte>) {
    var r := Frame(f, buf);
    if r.fault then Frame(f, buf + more) == r.(rest := r.rest + more)
    else Frame(f, buf + more) == Resume(f, r.blocks, r.rest + more)
  }

  lemma AppendAfterCut(f: Stepper, buf: seq<byte>, more: seq<byte>, b: Block)
    requires Cuts(f, buf, b) && Cuts(f, buf + more, b) && Appends(f, buf[|b.bytes|..], more)
    ensures Appends(f, buf, more)
  {
    var n := |b.bytes|;
    assert (buf + more)[n..] == buf[n..] + more;
    PrependResume(f, b, Frame(f, buf[n..]), more);
  }

  lemma PrependResume(f: Stepper, b: Block, r: Framed, more: seq<byte>)
    ensures Prepend(b, Resume(f, r.blocks, r.rest + more)) == Resume(f, [b] + r.blocks, r.rest + more)
  {
    var g := Frame(f, r.rest + more);
    assert [b] + (r.blocks + g.blocks) == [b] + r.blocks + g.blocks;
  }

  /** Successive `Feed` calls on a framer, stopping at the first that fails. */
  function FeedAll(f: Stepper, buf: seq<byte>, chunks: seq<seq<byte>>): Framed
    decreases |chunks|
  {
    if chunks == [] then Framed([], buf, false)
    else
      var r := Frame(f, buf + chunks[0]);
      if r.fault then r
      else
        var g := FeedAll(f, r.rest, chunks[1..]);
        g.(blocks := r.blocks + g.blocks)
  }

  lemma {:induction false} FrameSettles(f: Stepper, buf: seq<byte>)
    requires Stable(f)
    ensures !Frame(f, buf).fault ==> f(Frame(f, buf).rest) == Wait
    decreases |buf|
  {
    var c := FrontOf(f, buf, []);
    if c.CutsOff? {
      FrameSettles(f, buf[|c.b.bytes|..]);
    }
  }

  /** Main chunking theorem: however the stream is split, the calls together cut off the
      same blocks, fail in the same cases, and leave the same buffer as one `Feed` of
      the whole stream. */
  lemma {:induction false} ChunkingIndependence(f: Stepper, buf: seq<byte>, chunks: seq<seq<byte>>)
    requires Stable(f) && f(buf) == Wait
    ensures
      var pieces, whole := FeedAll(f, buf, chunks), Frame(f, buf + Concat(chunks));
      && pieces.blocks == whole.blocks && pieces.fault == whole.fault
      && (!whole.fault ==> pieces.rest == whole.rest)
    decreases |chunks|
  {
    if chunks == [] {
      assert buf + [] == buf;
    } else {
      var first, tail := buf + chunks[0], Concat(chunks[1..]);
      var r := Frame(f, first);
      FrameAppend(f, first, tail);
      assert buf + Concat(chunks) == first + tail;
      if !r.fault {
        FrameSettles(f, first);
        ChunkingIndependence(f, r.rest, chunks[1..]);
        var g := FeedAll(f, r.rest, chunks[1..]);
        assert FeedAll(f, buf, chunks) == g.(blocks := r.blocks + g.blocks);
        assert Frame(f, first + tail) == Resume(f, r.blocks, r.rest + tail);
      }
    }
  }

  // ----- conservation

  /** All bytes the blocks and the buffer account for. */
  function Accounted(r: Framed): seq<byte> { Concat(BlockBytes(r.blocks)) + r.rest }

  predicate Proper(b: Block) { b.bytes != [] && (b.Skipped? ==> |b.bytes| == 1) }

  /** Main conservation theorem: messages and skipped bytes are consecutive blocks of the
      input, in order; with the buffer they are all of it. No message is empty. */
  lemma {:induction false} FramingConserves(f: Stepper, buf: seq<byte>)
    ensures Accounted(Frame(f, buf)) == buf
    ensures forall i :: 0 <= i < |Frame(f, buf).blocks| ==> Proper(Frame(f, buf).blocks[i])
    decreases |buf|
  {
    match f(buf)
    case Wait =>
    case Fault =>
    case Skip =>
      FramingConserves(f, buf[1..]);
      PrependBytes(buf, Skipped(buf[..1]), Frame(f, buf[1..]));
    case Emit(k) =>
      FramingConserves(f, buf[k..]);
      PrependBytes(buf, Message(buf[..k]), Frame(f, buf[k..]));
  }

  lemma PrependBytes(buf: seq<byte>, b: Block, tail: Framed)
    requires |b.bytes| <= |buf| && b.bytes == buf[..|b.bytes|] && Accounted(tail) == buf[|b.bytes|..]
    ensures Accounted(Prepend(b, tail)) == buf
  {
    assert BlockBytes([b] + tail.blocks)[1..] == BlockBytes(tail.blocks);
    assert Accounted(Prepend(b, tail)) == b.bytes + Accounted(tail);
  }

  // ----- round trips

  /** A byte string that is one whole message: its front step cuts off all of it. */
  predicate Whole(f: Stepper, m: seq<byte>) { f(m) == Emit(|m|) }

  function AsBlocks(ms: seq<seq<byte>>): seq<Block> {
    seq(|ms|, i requires 0 <= i < |ms| => Message(ms[i]))
  }

  /** Main round-trip theorem: messages sent back to back come out as exactly those
      messages, with an empty buffer. */
  lemma {:induction false} RoundTrip(f: Stepper, ms: seq<seq<byte>>)
    requires Stable(f) && f([]) == Wait
    requires forall i :: 0 <= i < |ms| ==> Whole(f, ms[i])
    ensures Frame(f, Concat(ms)) == Framed(AsBlocks(ms), [], false)
    ensures Messages(AsBlocks(ms)) == ms
  {
    if ms != [] {
      var m, tail := ms[0], Concat(ms[1..]);
      RoundTrip(f, ms[1..]);
      assert f(m + tail) == f(m);
      assert (m + tail)[..|m|] == m && (m + tail)[|m|..] == tail;
      assert AsBlocks(ms) == [Message(m)] + AsBlocks(ms[1..]);
    }
  }

  /** ... for any splitting of the stream too. */
  lemma ChunkedRoundTrip(f: Stepper, ms: seq<seq<byte>>, chunks: seq<seq<byte>>)
    requires Stable(f) && f([]) == Wait
    requires forall i :: 0 <= i < |ms| ==> Whole(f, ms[i])
    requires Concat(chunks) == Concat(ms)
    ensures FeedAll(f, [], chunks) == Framed(AsBlocks(ms), [], false)
  {
    RoundTrip(f, ms);
    assert [] + Concat(chunks) == Concat(ms);
    ChunkingIndependence(f, [], chunks);
  }

  // ----- resynchronisation

  /** Each byte skipped on its own. */
  function SkippedEach(stray: seq<byte>): seq<Block> {
    seq(|stray|, i requires 0 <= i < |stray| => Skipped([stray[i]]))
  }

  /** Stray bytes in front of a message are skipped one by one, and the message and what
      follows come out as if they had not been there. */
  lemma {:induction false} Resynchronises(f: Stepper, stray: seq<byte>, m: seq<byte>, rest: seq<byte>)
    requires Stable(f) && Whole(f, m)
    requires forall i :: 0 <= i < |stray| ==> f((stray + m)[i..]) == Skip
    ensures
      var r := Frame(f, rest);
      Frame(f, stray + m + rest) == r.(blocks := SkippedEach(stray) + [Message(m)] + r.blocks)
    decreases |stray|
  {
    if stray == [] {
      assert stray + m + rest == m + rest;
      MessageFirst(f, m, rest);
      assert SkippedEach(stray) + [Message(m)] == [Message(m)];
    } else {
      var tail := stray[1..];
      forall i | 0 <= i < |tail|
        ensures f((tail + m)[i..]) == Skip
      {
        assert (tail + m)[i..] == (stray + m)[i + 1..];
      }
      Resynchronises(f, tail, m, rest);
      assert stray + m == [stray[0]] + (tail + m) && (stray + m)[0..] == stray + m;
      assert f((stray + m)[0..]) == Skip;
      SkipFirst(f, stray[0], tail + m, rest);
      assert [stray[0]] + (tail + m) + rest == stray + m + rest;
      Regroup(Skipped([stray[0]]), SkippedEach(tail), Message(m), Frame(f, rest).blocks);
      assert SkippedEach(stray) == [Skipped([stray[0]])] + SkippedEach(tail);
    }
  }

  lemma Regroup(b: Block, bs: seq<Block>, m: Block, more: seq<Block>)
    ensures [b] + (bs + [m] + more) == ([b] + bs) + [m] + more
  {
  }

  lemma MessageFirst(f: Stepper, m: seq<byte>, rest: seq<byte>)
    requires Stable(f) && Whole(f, m)
    ensures Frame(f, m + rest) == Prepend(Message(m), Frame(f, rest))
  {
    assert f(m + rest) == f(m);
    assert (m + rest)[..|m|] == m && (m + rest)[|m|..] == rest;
  }

  lemma SkipFirst(f: Stepper, b: byte, front: seq<byte>, rest: seq<byte>)
    requires Stable(f) && f([b] + front) == Skip
    ensures Frame(f, [b] + front + rest) == Prepend(Skipped([b]), Frame(f, front + rest))
  {
    var buf := [b] + front + rest;
    assert f(buf) == Skip;
    assert buf[..1] == [b] && buf[1..] == front + rest;
  }
}
