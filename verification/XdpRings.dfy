/** The AF_XDP ring reader: the fill ring, the rx ring and the UMEM that one capture
    socket shares with the kernel. Every load of a counter the kernel writes and every
    store is its own step, the copy out of UMEM goes byte by byte, and kernel steps may
    come between any two of them. A load of a counter that only the reader writes (rx
    consumer, fill producer) is part of the step beside it: no kernel step changes it.

    Counters are uint32 and wrap; a slot index `c & mask` is written `c % size`,
    which is the same because both sizes are powers of two. */
module XdpRings {

  import opened Bytes

  const FRAME_SIZE := 2048
  const FILL_SIZE := 2048
  const RX_SIZE := 512
  const UMEM_BYTES := 8388608

  /** struct xdp_desc: byte offset of the packet in UMEM, and its length. */
  datatype Desc = Desc(addr: nat, length: nat)

  /** One ring: the descriptor slots and the two wrapping counters. */
  datatype Ring<T> = Ring(slots: seq<T>, prod: nat, cons: nat)

  /** What the kernel published: the frame it gave up, the packet it put there, and
      the descriptor, which is corrupt when `good` is false. */
  datatype Delivery = Delivery(frame: nat, desc: Desc, data: seq<byte>, good: bool)

  /** Where the reader stands between two of its atomic operations. */
  datatype Reader =
    | Polling
    | Loaded(rxCons: nat)
    | Checking(rxCons: nat, desc: Desc)
    | Copying(rxCons: nat, desc: Desc, data: seq<byte>)
    | Examining(desc: Desc, data: seq<byte>)
    | Recycling(desc: Desc, data: seq<byte>, fillProd: nat, fillCons: nat)
    | Publishing(desc: Desc, data: seq<byte>, fillProd: nat)

  /** Shared memory, the reader, and the history of the run: `pushed`/`published` are
      all entries ever put in the rings, `taken`/`consumed` how many left them. */
  datatype State = State(
    fill: Ring<nat>, rx: Ring<Desc>, umem: seq<byte>, reader: Reader,
    pushed: seq<nat>, taken: nat, held: multiset<nat>,
    published: seq<Delivery>, consumed: nat,
    examined: seq<seq<byte>>, returned: seq<seq<byte>>,
    retired: multiset<nat>, lost: multiset<nat>)

  datatype Event =
    | Load | ReadDesc | Check | CopyByte | Advance | LoadFill | WriteFill | PublishFill
    | Take
    | Scribble(frame: nat, at: nat, data: seq<byte>)
    | Deliver(frame: nat, at: nat, data: seq<byte>)
    | DeliverCorrupt(frame: nat, desc: Desc)

  // uint32 subtraction and increment
  function Minus(a: nat, b: nat): nat { (a - b) % TWO32 }
  function Inc(c: nat): nat { (c + 1) % TWO32 }

  /** `desc.addr &^ (xdpFrameSize - 1)` */
  function FrameOf(desc: Desc): nat { desc.addr - desc.addr % FRAME_SIZE }

  /** The sanity check of ReadPacket, in uint64 arithmetic. */
  predicate Corrupt(desc: Desc) { (desc.addr + desc.length) % TWO64 > UMEM_BYTES }

  /** The check lets through exactly the descriptors that lie in UMEM, and those whose end
      wraps past 2^64 into it. A kernel never writes one of the latter, so the kernel steps
      below do not either. */
  lemma CheckExactly(desc: Desc)
    requires desc.addr < TWO64 && desc.length < TWO32
    ensures !Corrupt(desc) <==>
            desc.addr + desc.length <= UMEM_BYTES || TWO64 <= desc.addr + desc.length <= TWO64 + UMEM_BYTES
  {
    if desc.addr + desc.length >= TWO64 {
      assert (desc.addr + desc.length) % TWO64 == desc.addr + desc.length - TWO64;
    }
  }

  function Write(umem: seq<byte>, a: nat, data: seq<byte>): (r: seq<byte>)
    requires a + |data| <= |umem|
    ensures |r| == |umem|
  {
    umem[..a] + data + umem[a + |data|..]
  }

  // ----- one step of the reader or of the kernel; a step that is not enabled changes nothing

  function Step(s: State, e: Event, accepts: seq<byte> -> bool): State
    requires Shaped(s)
  {
    match e
    case Load => DoLoad(s)
    case ReadDesc => DoReadDesc(s)
    case Check => DoCheck(s)
    case CopyByte => DoCopyByte(s)
    case Advance => DoAdvance(s)
    case LoadFill => DoLoadFill(s)
    case WriteFill => DoWriteFill(s)
    case PublishFill => DoPublishFill(s, accepts)
    case Take => DoTake(s)
    case Scribble(f, at, data) => DoScribble(s, f, at, data)
    case Deliver(f, at, data) => DoDeliver(s, f, at, data)
    case DeliverCorrupt(f, desc) => DoDeliverCorrupt(s, f, desc)
  }

  predicate Shaped(s: State) {
    |s.fill.slots| == FILL_SIZE && |s.rx.slots| == RX_SIZE && |s.umem| == UMEM_BYTES
  }

  function DoLoad(s: State): State {
    if s.reader.Polling? && s.rx.prod != s.rx.cons then s.(reader := Loaded(s.rx.cons)) else s
  }

  function DoReadDesc(s: State): State
    requires Shaped(s)
  {
    if s.reader.Loaded? then
      s.(reader := Checking(s.reader.rxCons, s.rx.slots[s.reader.rxCons % RX_SIZE]))
    else s
  }

  function DoCheck(s: State): State {
    if !s.reader.Checking? then s
    else if Corrupt(s.reader.desc) then
      s.(rx := s.rx.(cons := Inc(s.reader.rxCons)), reader := Polling,
         consumed := s.consumed + 1,
         retired := s.retired + (if s.consumed < |s.published| then multiset{s.published[s.consumed].frame} else multiset{}))
    else s.(reader := Copying(s.reader.rxCons, s.reader.desc, []))
  }

  function DoCopyByte(s: State): State {
    if s.reader.Copying? && |s.reader.data| < s.reader.desc.length
       && s.reader.desc.addr + |s.reader.data| < |s.umem| then
      s.(reader := Copying(s.reader.rxCons, s.reader.desc,
                           s.reader.data + [s.umem[s.reader.desc.addr + |s.reader.data|]]))
    else s
  }

  function DoAdvance(s: State): State {
    if s.reader.Copying? && |s.reader.data| == s.reader.desc.length then
      s.(rx := s.rx.(cons := Inc(s.reader.rxCons)), reader := Examining(s.reader.desc, s.reader.data),
         consumed := s.consumed + 1, examined := s.examined + [s.reader.data])
    else s
  }

  function DoLoadFill(s: State): State {
    if s.reader.Examining? then
      s.(reader := Recycling(s.reader.desc, s.reader.data, s.fill.prod, s.fill.cons))
    else s
  }

  function DoWriteFill(s: State): State
    requires Shaped(s)
  {
    if !s.reader.Recycling? then s
    else if (FILL_SIZE - Minus(s.reader.fillProd, s.reader.fillCons)) % TWO32 > 0 then
      s.(fill := s.fill.(slots := s.fill.slots[s.reader.fillProd % FILL_SIZE := FrameOf(s.reader.desc)]),
         reader := Publishing(s.reader.desc, s.reader.data, s.reader.fillProd))
    else
      s.(reader := Polling, lost := s.lost + multiset{FrameOf(s.reader.desc)})
  }

  function DoPublishFill(s: State, accepts: seq<byte> -> bool): State {
    if s.reader.Publishing? then
      s.(fill := s.fill.(prod := Inc(s.reader.fillProd)), reader := Polling,
         pushed := s.pushed + [FrameOf(s.reader.desc)],
         returned := s.returned + (if accepts(s.reader.data) then [s.reader.data] else []))
    else s
  }

  /** The kernel takes the oldest fill entry. */
  function DoTake(s: State): State
    requires Shaped(s)
  {
    if s.fill.prod != s.fill.cons then
      s.(fill := s.fill.(cons := Inc(s.fill.cons)), taken := s.taken + 1,
         held := s.held + multiset{s.fill.slots[s.fill.cons % FILL_SIZE]})
    else s
  }

  /** The kernel writes anything it likes inside a frame it holds. */
  function DoScribble(s: State, frame: nat, at: nat, data: seq<byte>): State
    requires Shaped(s)
  {
    if frame in s.held && at + |data| <= FRAME_SIZE && frame + FRAME_SIZE <= UMEM_BYTES then
      s.(umem := Write(s.umem, frame + at, data))
    else s
  }

  /** The kernel puts a packet in a frame it holds and publishes it, if the rx ring has room. */
  function DoDeliver(s: State, frame: nat, at: nat, data: seq<byte>): State
    requires Shaped(s)
  {
    if frame in s.held && at + |data| <= FRAME_SIZE && at < FRAME_SIZE && frame + FRAME_SIZE <= UMEM_BYTES
       && Minus(s.rx.prod, s.rx.cons) < RX_SIZE then
      var d := Delivery(frame, Desc(frame + at, |data|), data, true);
      s.(umem := Write(s.umem, frame + at, data),
         rx := Ring(s.rx.slots[s.rx.prod % RX_SIZE := d.desc], Inc(s.rx.prod), s.rx.cons),
         held := s.held - multiset{frame}, published := s.published + [d])
    else s
  }

  /** The kernel gives up a frame behind a descriptor that fails the sanity check. */
  function DoDeliverCorrupt(s: State, frame: nat, desc: Desc): State
    requires Shaped(s)
  {
    if frame in s.held && Corrupt(desc) && Minus(s.rx.prod, s.rx.cons) < RX_SIZE then
      var d := Delivery(frame, desc, [], false);
      s.(rx := Ring(s.rx.slots[s.rx.prod % RX_SIZE := desc], Inc(s.rx.prod), s.rx.cons),
         held := s.held - multiset{frame}, published := s.published + [d])
    else s
  }

  // ----- the start: the fill ring holds frames 0 .. 2047

  function FrameBases(n: nat): (r: seq<nat>)
    ensures |r| == n
  {
    seq(n, i requires 0 <= i => i * FRAME_SIZE)
  }

  /** The pre-population loop of newXDPSource, on the ring's descriptor array. */
  method PrePopulate(slots: array<nat>) returns (prod: nat)
    requires slots.Length == FILL_SIZE
    modifies slots
    ensures prod == FILL_SIZE && slots[..] == FrameBases(FILL_SIZE)
  {
    prod := 0;
    for i := 0 to FILL_SIZE
      invariant prod == i
      invariant forall k :: 0 <= k < i ==> slots[k] == k * FRAME_SIZE
    {
      slots[prod % FILL_SIZE] := i * FRAME_SIZE;
      prod := Inc(prod);
    }
  }

  predicate Initial(s: State) {
    && Shaped(s)
    && s.fill == Ring(FrameBases(FILL_SIZE), FILL_SIZE, 0)
    && s.rx.prod == 0 && s.rx.cons == 0 && s.reader == Polling
    && s.pushed == FrameBases(FILL_SIZE) && s.taken == 0 && s.held == multiset{}
    && s.published == [] && s.consumed == 0 && s.examined == [] && s.returned == []
    && s.retired == multiset{} && s.lost == multiset{}
  }

  /** The state after any interleaving of reader and kernel steps. */
  ghost function Run(s: State, es: seq<Event>, accepts: seq<byte> -> bool): (r: State)
    requires Shaped(s)
    ensures Shaped(r)
    decreases |es|
  {
    if es == [] then s else Step(Run(s, es[..|es| - 1], accepts), es[|es| - 1], accepts)
  }

  // ----- what the raw ring memory holds

  /** The fill entries a kernel reading the ring memory would find, oldest first. */
  function FillEntries(s: State): (r: seq<nat>)
    requires Shaped(s)
  {
    seq(Minus(s.fill.prod, s.fill.cons), i requires 0 <= i => s.fill.slots[(s.fill.cons + i) % TWO32 % FILL_SIZE])
  }

  /** The descriptors a reader of the rx ring memory would find, oldest first. */
  function RxEntries(s: State): (r: seq<Desc>)
    requires Shaped(s)
  {
    seq(Minus(s.rx.prod, s.rx.cons), i requires 0 <= i => s.rx.slots[(s.rx.cons + i) % TWO32 % RX_SIZE])
  }

  function Frames(ds: seq<Delivery>): (r: seq<nat>)
    ensures |r| == |ds|
  {
    seq(|ds|, i requires 0 <= i < |ds| => ds[i].frame)
  }

  function Descs(ds: seq<Delivery>): (r: seq<Desc>)
    ensures |r| == |ds|
  {
    seq(|ds|, i requires 0 <= i < |ds| => ds[i].desc)
  }

  /** The frame the reader took out of the rx ring and has not put in the fill ring yet. */
  function ReaderHeld(s: State): multiset<nat> {
    if s.reader.Examining? || s.reader.Recycling? || s.reader.Publishing? then multiset{FrameOf(s.reader.desc)}
    else multiset{}
  }

  /** Frames 0 .. n-1, each once. */
  ghost function FrameSet(n: nat): set<nat> { set i | 0 <= i < n :: i * FRAME_SIZE }

  ghost function Ownership(s: State): multiset<nat>
    requires s.taken <= |s.pushed| && s.consumed <= |s.published|
  {
    multiset(s.pushed[s.taken..]) + s.held + multiset(Frames(s.published[s.consumed..]))
    + ReaderHeld(s) + s.retired + s.lost
  }

  /** The packets behind the well-formed descriptors, in order. */
  function Packets(ds: seq<Delivery>): seq<seq<byte>> {
    if ds == [] then []
    else Packets(ds[..|ds| - 1]) + (if ds[|ds| - 1].good then [ds[|ds| - 1].data] else [])
  }

  function Matching(ps: seq<seq<byte>>, accepts: seq<byte> -> bool): seq<seq<byte>> {
    if ps == [] then []
    else Matching(ps[..|ps| - 1], accepts) + (if accepts(ps[|ps| - 1]) then [ps[|ps| - 1]] else [])
  }

  function CorruptCount(ds: seq<Delivery>): nat {
    if ds == [] then 0 else CorruptCount(ds[..|ds| - 1]) + (if ds[|ds| - 1].good then 0 else 1)
  }

  // ----- the invariant

  /** The ring memory agrees with the unbounded history of the ring: `hist` is all that
      was ever pushed, of which the first `gone` were taken. */
  ghost predicate RingInv<T>(ring: Ring<T>, hist: seq<T>, gone: nat, size: nat)
    requires 0 < size
  {
    && |ring.slots| == size
    && gone <= |hist| <= gone + size
    && ring.prod == |hist| % TWO32 && ring.cons == gone % TWO32
    && (forall i :: gone <= i < |hist| ==> ring.slots[i % size] == hist[i])
  }

  ghost predicate FillInv(s: State) { RingInv(s.fill, s.pushed, s.taken, FILL_SIZE) }

  ghost predicate RxInv(s: State) { RingInv(s.rx, Descs(s.published), s.consumed, RX_SIZE) }

  ghost predicate OwnInv(s: State)
    requires s.taken <= |s.pushed| && s.consumed <= |s.published|
  {
    Ownership(s) == multiset(FrameSet(FILL_SIZE))
  }

  /** A pending good delivery still has its bytes in UMEM. */
  predicate Intact(d: Delivery, umem: seq<byte>) {
    if d.good then
      && d.frame == FrameOf(d.desc) && d.desc.length == |d.data|
      && d.desc.addr + |d.data| <= d.frame + FRAME_SIZE && d.frame + FRAME_SIZE <= |umem|
      && !Corrupt(d.desc)
      && umem[d.desc.addr..d.desc.addr + |d.data|] == d.data
    else Corrupt(d.desc)
  }

  ghost predicate ContentInv(s: State)
    requires s.consumed <= |s.published|
  {
    forall i :: s.consumed <= i < |s.published| ==> Intact(s.published[i], s.umem)
  }

  ghost predicate ReaderInv(s: State)
    requires Shaped(s) && FillInv(s) && RxInv(s)
  {
    match s.reader
    case Polling => true
    case Loaded(c) => c == s.rx.cons && s.consumed < |s.published|
    case Checking(c, d) => c == s.rx.cons && s.consumed < |s.published| && d == s.published[s.consumed].desc
    case Copying(c, d, data) =>
      && c == s.rx.cons && s.consumed < |s.published| && d == s.published[s.consumed].desc
      && s.published[s.consumed].good && data <= s.published[s.consumed].data
    case Examining(d, data) => |s.pushed| - s.taken < FILL_SIZE
    case Recycling(d, data, p, c) =>
      && p == s.fill.prod && Minus(p, c) < FILL_SIZE && |s.pushed| - s.taken < FILL_SIZE
    case Publishing(d, data, p) =>
      && p == s.fill.prod && |s.pushed| - s.taken < FILL_SIZE
      && s.fill.slots[|s.pushed| % FILL_SIZE] == FrameOf(d)
  }

  ghost predicate LogInv(s: State, accepts: seq<byte> -> bool)
    requires s.consumed <= |s.published|
  {
    && s.examined == Packets(s.published[..s.consumed])
    && |s.retired| == CorruptCount(s.published[..s.consumed])
    && s.lost == multiset{}
    && (if s.reader.Examining? || s.reader.Recycling? || s.reader.Publishing? then
          && s.examined != [] && s.examined[|s.examined| - 1] == s.reader.data
          && s.returned == Matching(s.examined[..|s.examined| - 1], accepts)
        else s.returned == Matching(s.examined, accepts))
  }

  ghost predicate Inv(s: State, accepts: seq<byte> -> bool) {
    && Shaped(s) && FillInv(s) && RxInv(s) && OwnInv(s) && ContentInv(s) && ReaderInv(s) && LogInv(s, accepts)
  }
}
