/** What every interleaving of the AF_XDP reader with the kernel keeps: frame
    ownership, FIFO delivery and intact packet bytes. */
module XdpProofs {
  import opened Bytes
  import opened XdpRings

  // ----- one ring: wrapping counters refine the unbounded history

  predicate RingSize(size: nat) { size == FILL_SIZE || size == RX_SIZE }

  lemma WrapSum(i: nat, k: nat)
    ensures (i % TWO32 + k) % TWO32 == (i + k) % TWO32
    ensures Minus((i + k) % TWO32, i % TWO32) == k % TWO32
  {
    var q, p := i / TWO32, (i + k) / TWO32;
    Mod32Unique(i % TWO32 + k, (i + k) % TWO32, p - q);
    Mod32Unique((i + k) % TWO32 - i % TWO32, k % TWO32, q - p + k / TWO32);
  }

  lemma WrapIndex(i: nat, size: nat)
    requires RingSize(size)
    ensures i % TWO32 % size == i % size
  {
    var q, r := i / TWO32, i % TWO32;
    if size == FILL_SIZE {
      FillModUnique(i, r % FILL_SIZE, 0x20_0000 * q + r / FILL_SIZE);
    } else {
      RxModUnique(i, r % RX_SIZE, 0x80_0000 * q + r / RX_SIZE);
    }
  }

  lemma FillModUnique(x: int, r: nat, q: int)
    requires 0 <= r < FILL_SIZE && x == FILL_SIZE * q + r
    ensures x % FILL_SIZE == r
  {
  }

  lemma RxModUnique(x: int, r: nat, q: int)
    requires 0 <= r < RX_SIZE && x == RX_SIZE * q + r
    ensures x % RX_SIZE == r
  {
  }

  lemma SlotsDiffer(i: nat, j: nat, size: nat)
    requires RingSize(size) && i < j < i + size
    ensures i % size != j % size
  {
  }

  /** uint32 subtraction of the counters is the true number of entries. */
  lemma RingLength<T>(ring: Ring<T>, hist: seq<T>, gone: nat, size: nat)
    requires RingSize(size) && RingInv(ring, hist, gone, size)
    ensures Minus(ring.prod, ring.cons) == |hist| - gone
    ensures ring.prod != ring.cons <==> gone < |hist|
  {
    WrapSum(gone, |hist| - gone);
  }

  lemma RingHead<T>(ring: Ring<T>, hist: seq<T>, gone: nat, size: nat)
    requires RingSize(size) && RingInv(ring, hist, gone, size) && gone < |hist|
    ensures ring.slots[ring.cons % size] == hist[gone]
    ensures RingInv(ring.(cons := Inc(ring.cons)), hist, gone + 1, size)
  {
    WrapIndex(gone, size);
    WrapSum(gone, 1);
  }

  lemma RingWrite<T>(ring: Ring<T>, hist: seq<T>, gone: nat, size: nat, x: T)
    requires RingSize(size) && RingInv(ring, hist, gone, size) && |hist| < gone + size
    ensures var r := ring.(slots := ring.slots[ring.prod % size := x]);
            RingInv(r, hist, gone, size) && r.slots[|hist| % size] == x
  {
    WrapIndex(|hist|, size);
    forall i | gone <= i < |hist|
      ensures i % size != |hist| % size
    {
      SlotsDiffer(i, |hist|, size);
    }
  }

  lemma RingPublish<T>(ring: Ring<T>, hist: seq<T>, gone: nat, size: nat, x: T)
    requires RingSize(size) && RingInv(ring, hist, gone, size) && |hist| < gone + size
    requires ring.slots[|hist| % size] == x
    ensures RingInv(ring.(prod := Inc(ring.prod)), hist + [x], gone, size)
  {
    WrapSum(|hist|, 1);
  }

  /** The entries found by walking the ring memory are those pushed and not yet taken. */
  lemma RingEntries<T>(ring: Ring<T>, hist: seq<T>, gone: nat, size: nat, i: nat)
    requires RingSize(size) && RingInv(ring, hist, gone, size) && i < |hist| - gone
    ensures ring.slots[(ring.cons + i) % TWO32 % size] == hist[gone + i]
  {
    WrapSum(gone, i);
    WrapIndex(gone + i, size);
  }

  lemma DescsAppend(ds: seq<Delivery>, d: Delivery)
    ensures Descs(ds + [d]) == Descs(ds) + [d.desc]
  {
  }

  // ----- ownership bookkeeping

  lemma {:induction false} FrameSetFacts(n: nat)
    ensures multiset(FrameBases(n)) == multiset(FrameSet(n)) && |FrameSet(n)| == n
  {
    if n == 0 {
      assert FrameBases(0) == [] && FrameSet(0) == {};
    } else {
      var f: nat := (n - 1) * FRAME_SIZE;
      var s := FrameSet(n - 1);
      FrameSetFacts(n - 1);
      FrameSetNext(n);
      assert multiset(s + {f}) == multiset(s) + multiset{f};
      assert |s + {f}| == |s| + 1;
    }
  }

  lemma FrameSetNext(n: nat)
    requires n > 0
    ensures FrameBases(n) == FrameBases(n - 1) + [(n - 1) * FRAME_SIZE]
    ensures FrameSet(n) == FrameSet(n - 1) + {(n - 1) * FRAME_SIZE}
    ensures (n - 1) * FRAME_SIZE !in FrameSet(n - 1)
  {
    forall x
      ensures x in FrameSet(n) <==> x in FrameSet(n - 1) + {(n - 1) * FRAME_SIZE}
    {
      if x in FrameSet(n) {
        var i :| 0 <= i < n && x == i * FRAME_SIZE;
        assert i < n - 1 || i == n - 1;
      }
    }
  }

  /** Every frame is owned by exactly one party, so holders are disjoint. */
  lemma OwnedOnce(s: State, f: nat)
    requires s.taken <= |s.pushed| && s.consumed <= |s.published| && OwnInv(s)
    ensures Ownership(s)[f] <= 1
    ensures f in Ownership(s) ==> f % FRAME_SIZE == 0 && f + FRAME_SIZE <= UMEM_BYTES
  {
    assert f in Ownership(s) ==> f in FrameSet(FILL_SIZE);
  }

  lemma SplitHead<T>(q: seq<T>, i: nat)
    requires i < |q|
    ensures multiset(q[i..]) == multiset{q[i]} + multiset(q[i + 1..])
  {
    assert q[i..] == [q[i]] + q[i + 1..];
  }

  lemma FramesSplit(ds: seq<Delivery>, i: nat)
    requires i < |ds|
    ensures multiset(Frames(ds[i..])) == multiset{ds[i].frame} + multiset(Frames(ds[i + 1..]))
  {
    assert Frames(ds[i..]) == [ds[i].frame] + Frames(ds[i + 1..]);
  }

  lemma FramesAppend(ds: seq<Delivery>, d: Delivery, i: nat)
    requires i <= |ds|
    ensures multiset(Frames((ds + [d])[i..])) == multiset(Frames(ds[i..])) + multiset{d.frame}
  {
    assert Frames((ds + [d])[i..]) == Frames(ds[i..]) + [d.frame];
  }

  lemma PendingFrame(ds: seq<Delivery>, i: nat, k: nat)
    requires i <= k < |ds|
    ensures ds[k].frame in multiset(Frames(ds[i..]))
  {
    assert Frames(ds[i..])[k - i] == ds[k].frame;
  }

  /** A write inside one frame leaves a slice of another frame alone. */
  lemma WriteElsewhere(umem: seq<byte>, a: nat, data: seq<byte>, b: nat, n: nat)
    requires a + |data| <= |umem| && b + n <= |umem|
    requires b + n <= a || a + |data| <= b
    ensures Write(umem, a, data)[b..b + n] == umem[b..b + n]
  {
  }

  /** Kernel writes to a frame it holds leave every pending packet intact. */
  lemma HeldWriteKeepsContent(s: State, f: nat, at: nat, data: seq<byte>)
    requires Shaped(s) && FillInv(s) && RxInv(s) && OwnInv(s) && ContentInv(s)
    requires f in s.held && at + |data| <= FRAME_SIZE && f + FRAME_SIZE <= UMEM_BYTES
    ensures forall i :: s.consumed <= i < |s.published| ==> Intact(s.published[i], Write(s.umem, f + at, data))
  {
    forall i | s.consumed <= i < |s.published|
      ensures Intact(s.published[i], Write(s.umem, f + at, data))
    {
      PendingFrame(s.published, s.consumed, i);
      OwnedOnce(s, f);
      OwnedOnce(s, s.published[i].frame);
      WriteOtherFrame(s.published[i], s.umem, f, at, data);
    }
  }

  lemma WriteOtherFrame(d: Delivery, umem: seq<byte>, f: nat, at: nat, data: seq<byte>)
    requires Intact(d, umem) && d.frame != f && d.frame % FRAME_SIZE == 0 && f % FRAME_SIZE == 0
    requires at + |data| <= FRAME_SIZE && f + FRAME_SIZE <= |umem|
    ensures Intact(d, Write(umem, f + at, data))
  {
    if d.good {
      WriteElsewhere(umem, f + at, data, d.desc.addr, |d.data|);
    }
  }

  lemma LastPacket(ds: seq<Delivery>, n: nat)
    requires n < |ds|
    ensures Packets(ds[..n + 1]) == Packets(ds[..n]) + (if ds[n].good then [ds[n].data] else [])
    ensures CorruptCount(ds[..n + 1]) == CorruptCount(ds[..n]) + (if ds[n].good then 0 else 1)
  {
    assert ds[..n + 1][..n] == ds[..n];
  }

  // ----- reader steps

  lemma LoadKeeps(s: State, accepts: seq<byte> -> bool)
    requires Inv(s, accepts)
    ensures Inv(DoLoad(s), accepts)
  {
    RingLength(s.rx, Descs(s.published), s.consumed, RX_SIZE);
  }

  lemma ReadDescKeeps(s: State, accepts: seq<byte> -> bool)
    requires Inv(s, accepts)
    ensures Inv(DoReadDesc(s), accepts)
  {
    if s.reader.Loaded? {
      RingHead(s.rx, Descs(s.published), s.consumed, RX_SIZE);
    }
  }

  lemma CheckKeeps(s: State, accepts: seq<byte> -> bool)
    requires Inv(s, accepts)
    ensures Inv(DoCheck(s), accepts)
  {
    if s.reader.Checking? {
      assert Intact(s.published[s.consumed], s.umem);
      if Corrupt(s.reader.desc) {
        RingHead(s.rx, Descs(s.published), s.consumed, RX_SIZE);
        SkipKeepsBooks(s, DoCheck(s), accepts);
      }
    }
  }

  /** A corrupt descriptor moves its frame from the rx ring to the retired ones. */
  lemma SkipKeepsBooks(s: State, t: State, accepts: seq<byte> -> bool)
    requires s.taken <= |s.pushed| && s.consumed < |s.published| && OwnInv(s) && LogInv(s, accepts)
    requires ReaderHeld(s) == multiset{} && t.reader == Polling && !s.published[s.consumed].good
    requires t == s.(rx := t.rx, reader := Polling, consumed := s.consumed + 1,
                     retired := s.retired + multiset{s.published[s.consumed].frame})
    ensures OwnInv(t) && LogInv(t, accepts)
  {
    FramesSplit(s.published, s.consumed);
    LastPacket(s.published, s.consumed);
    assert Ownership(t) == Ownership(s);
  }

  lemma NextByte(d: Delivery, umem: seq<byte>, k: nat)
    requires d.good && Intact(d, umem) && k < d.desc.length
    ensures d.desc.addr + k < |umem| && k < |d.data| && umem[d.desc.addr + k] == d.data[k]
  {
    assert d.data[k] == umem[d.desc.addr..d.desc.addr + |d.data|][k];
  }

  lemma CopyByteKeeps(s: State, accepts: seq<byte> -> bool)
    requires Inv(s, accepts)
    ensures Inv(DoCopyByte(s), accepts)
  {
    if s.reader.Copying? {
      var d := s.published[s.consumed];
      var t := DoCopyByte(s);
      assert Intact(d, s.umem);
      if |s.reader.data| < d.desc.length {
        NextByte(d, s.umem, |s.reader.data|);
        assert t.reader.data <= d.data;
      }
      assert t == s.(reader := t.reader);
      assert Ownership(t) == Ownership(s);
    }
  }

  lemma AdvanceKeeps(s: State, accepts: seq<byte> -> bool)
    requires Inv(s, accepts)
    ensures Inv(DoAdvance(s), accepts)
  {
    if s.reader.Copying? && |s.reader.data| == s.reader.desc.length {
      var t := DoAdvance(s);
      assert Intact(s.published[s.consumed], s.umem);
      RingHead(s.rx, Descs(s.published), s.consumed, RX_SIZE);
      ConsumeOwnership(s, t);
      FewerThanAll(t);
      AdvanceLog(s, t, accepts);
    }
  }

  lemma AdvanceLog(s: State, t: State, accepts: seq<byte> -> bool)
    requires s.consumed < |s.published| && LogInv(s, accepts) && ReaderHeld(s) == multiset{}
    requires s.published[s.consumed].good && t.reader.Examining? && t.reader.data == s.published[s.consumed].data
    requires t == s.(rx := t.rx, reader := t.reader, consumed := s.consumed + 1, examined := s.examined + [t.reader.data])
    ensures LogInv(t, accepts)
  {
    LastPacket(s.published, s.consumed);
    assert t.examined[..|t.examined| - 1] == s.examined;
  }

  lemma ConsumeOwnership(s: State, t: State)
    requires s.taken <= |s.pushed| && s.consumed < |s.published| && OwnInv(s) && ReaderHeld(s) == multiset{}
    requires t == s.(rx := t.rx, reader := t.reader, consumed := s.consumed + 1, examined := t.examined)
    requires ReaderHeld(t) == multiset{s.published[s.consumed].frame}
    ensures OwnInv(t)
  {
    FramesSplit(s.published, s.consumed);
    assert Ownership(t) == Ownership(s);
  }

  /** While the reader holds a frame, the fill ring cannot be full. */
  lemma FewerThanAll(s: State)
    requires s.taken <= |s.pushed| && s.consumed <= |s.published| && OwnInv(s)
    requires |ReaderHeld(s)| == 1
    ensures |s.pushed| - s.taken < FILL_SIZE
  {
    FrameSetFacts(FILL_SIZE);
    assert |Ownership(s)| == |multiset(FrameSet(FILL_SIZE))| == FILL_SIZE;
    assert |multiset(s.pushed[s.taken..])| == |s.pushed| - s.taken;
  }

  lemma LoadFillKeeps(s: State, accepts: seq<byte> -> bool)
    requires Inv(s, accepts)
    ensures Inv(DoLoadFill(s), accepts)
  {
    if s.reader.Examining? {
      RingLength(s.fill, s.pushed, s.taken, FILL_SIZE);
      ReaderMoves(s, DoLoadFill(s), accepts);
    }
  }

  /** The reader goes on with the same frame in its hands. */
  lemma ReaderMoves(s: State, t: State, accepts: seq<byte> -> bool)
    requires Inv(s, accepts) && s.reader.Examining? && t.reader.Recycling?
    requires t == s.(reader := t.reader) && t.reader.desc == s.reader.desc && t.reader.data == s.reader.data
    requires FillInv(t) && RxInv(t) && ReaderInv(t)
    ensures Inv(t, accepts)
  {
    assert ReaderHeld(t) == ReaderHeld(s);
    assert Ownership(t) == Ownership(s);
  }

  /** The `free > 0` test always succeeds: no frame is ever lost. */
  lemma WriteFillKeeps(s: State, accepts: seq<byte> -> bool)
    requires Inv(s, accepts)
    ensures Inv(DoWriteFill(s), accepts)
    ensures s.reader.Recycling? ==> DoWriteFill(s).reader.Publishing?
  {
    if s.reader.Recycling? {
      var t := DoWriteFill(s);
      WriteFillRing(s, t);
      assert Ownership(t) == Ownership(s);
    }
  }

  lemma WriteFillRing(s: State, t: State)
    requires Shaped(s) && FillInv(s) && RxInv(s) && ReaderInv(s) && s.reader.Recycling?
    requires t == DoWriteFill(s)
    ensures t.reader == Publishing(s.reader.desc, s.reader.data, s.fill.prod)
    ensures FillInv(t) && t.fill.slots[|s.pushed| % FILL_SIZE] == FrameOf(s.reader.desc)
    ensures t == s.(fill := t.fill, reader := t.reader)
  {
    RingWrite(s.fill, s.pushed, s.taken, FILL_SIZE, FrameOf(s.reader.desc));
    FreeIsPositive(Minus(s.reader.fillProd, s.reader.fillCons));
  }

  lemma FreeIsPositive(used: nat)
    requires used < FILL_SIZE
    ensures (FILL_SIZE - used) % TWO32 > 0
  {
  }

  lemma PublishFillKeeps(s: State, accepts: seq<byte> -> bool)
    requires Inv(s, accepts)
    ensures Inv(DoPublishFill(s, accepts), accepts)
  {
    if s.reader.Publishing? {
      var t := DoPublishFill(s, accepts);
      RingPublish(s.fill, s.pushed, s.taken, FILL_SIZE, FrameOf(s.reader.desc));
      assert t.pushed[t.taken..] == s.pushed[s.taken..] + [FrameOf(s.reader.desc)];
      assert Ownership(t) == Ownership(s);
    }
  }

  // ----- kernel steps

  lemma TakeKeeps(s: State, accepts: seq<byte> -> bool)
    requires Inv(s, accepts)
    ensures Inv(DoTake(s), accepts)
  {
    RingLength(s.fill, s.pushed, s.taken, FILL_SIZE);
    if s.taken < |s.pushed| {
      RingHead(s.fill, s.pushed, s.taken, FILL_SIZE);
      TakeOwnership(s, DoTake(s));
    }
  }

  lemma TakeOwnership(s: State, t: State)
    requires s.taken < |s.pushed| && s.consumed <= |s.published| && OwnInv(s)
    requires t == s.(fill := t.fill, taken := s.taken + 1, held := s.held + multiset{s.pushed[s.taken]})
    ensures OwnInv(t)
  {
    SplitHead(s.pushed, s.taken);
    assert Ownership(t) == Ownership(s);
  }

  lemma ScribbleKeeps(s: State, f: nat, at: nat, data: seq<byte>, accepts: seq<byte> -> bool)
    requires Inv(s, accepts)
    ensures Inv(DoScribble(s, f, at, data), accepts)
  {
    if f in s.held && at + |data| <= FRAME_SIZE && f + FRAME_SIZE <= UMEM_BYTES {
      HeldWriteKeepsContent(s, f, at, data);
      assert Ownership(DoScribble(s, f, at, data)) == Ownership(s);
    }
  }

  /** Pushing a descriptor for a held frame keeps the rx ring. */
  lemma PushRxRing(s: State, d: Delivery, t: State)
    requires RxInv(s) && |s.published| - s.consumed < RX_SIZE
    requires t.rx == Ring(s.rx.slots[s.rx.prod % RX_SIZE := d.desc], Inc(s.rx.prod), s.rx.cons)
    requires t.published == s.published + [d] && t.consumed == s.consumed
    ensures RxInv(t)
  {
    RingWrite(s.rx, Descs(s.published), s.consumed, RX_SIZE, d.desc);
    RingPublish(s.rx.(slots := t.rx.slots), Descs(s.published), s.consumed, RX_SIZE, d.desc);
    DescsAppend(s.published, d);
  }

  /** ... and the ownership balance. */
  lemma PushRxOwnership(s: State, d: Delivery, t: State)
    requires s.taken <= |s.pushed| && s.consumed <= |s.published| && OwnInv(s) && d.frame in s.held
    requires t.pushed == s.pushed && t.taken == s.taken && t.reader == s.reader
    requires t.retired == s.retired && t.lost == s.lost && t.consumed == s.consumed
    requires t.held == s.held - multiset{d.frame} && t.published == s.published + [d]
    ensures OwnInv(t)
  {
    FramesAppend(s.published, d, s.consumed);
    assert s.held == t.held + multiset{d.frame};
    assert Ownership(t) == Ownership(s);
  }

  lemma PushRxKeeps(s: State, d: Delivery, t: State, accepts: seq<byte> -> bool)
    requires Inv(s, accepts) && d.frame in s.held && |s.published| - s.consumed < RX_SIZE
    requires Shaped(t) && Intact(d, t.umem)
    requires forall i :: s.consumed <= i < |s.published| ==> Intact(s.published[i], t.umem)
    requires t == s.(umem := t.umem,
                     rx := Ring(s.rx.slots[s.rx.prod % RX_SIZE := d.desc], Inc(s.rx.prod), s.rx.cons),
                     held := s.held - multiset{d.frame}, published := s.published + [d])
    ensures Inv(t, accepts)
  {
    PushRxRing(s, d, t);
    PushRxOwnership(s, d, t);
    assert t.published[..t.consumed] == s.published[..s.consumed];
  }

  lemma FreshPacketIntact(umem: seq<byte>, d: Delivery, at: nat)
    requires |umem| == UMEM_BYTES && d.frame % FRAME_SIZE == 0 && d.frame + FRAME_SIZE <= UMEM_BYTES
    requires d.good && d.desc == Desc(d.frame + at, |d.data|) && at + |d.data| <= FRAME_SIZE && at < FRAME_SIZE
    ensures Intact(d, Write(umem, d.frame + at, d.data))
  {
    var w := Write(umem, d.frame + at, d.data);
    assert w[d.desc.addr..d.desc.addr + |d.data|] == d.data;
  }

  lemma DeliverKeeps(s: State, f: nat, at: nat, data: seq<byte>, accepts: seq<byte> -> bool)
    requires Inv(s, accepts)
    ensures Inv(DoDeliver(s, f, at, data), accepts)
  {
    RingLength(s.rx, Descs(s.published), s.consumed, RX_SIZE);
    var t := DoDeliver(s, f, at, data);
    if t != s {
      OwnedOnce(s, f);
      HeldWriteKeepsContent(s, f, at, data);
      var d := Delivery(f, Desc(f + at, |data|), data, true);
      FreshPacketIntact(s.umem, d, at);
      PushRxKeeps(s, d, t, accepts);
    }
  }

  lemma DeliverCorruptKeeps(s: State, f: nat, desc: Desc, accepts: seq<byte> -> bool)
    requires Inv(s, accepts)
    ensures Inv(DoDeliverCorrupt(s, f, desc), accepts)
  {
    RingLength(s.rx, Descs(s.published), s.consumed, RX_SIZE);
    var t := DoDeliverCorrupt(s, f, desc);
    if t != s {
      PushRxKeeps(s, Delivery(f, desc, [], false), t, accepts);
    }
  }

  // ----- whole runs

  lemma StepKeeps(s: State, e: Event, accepts: seq<byte> -> bool)
    requires Inv(s, accepts)
    ensures Inv(Step(s, e, accepts), accepts)
  {
    match e
    case Load => LoadKeeps(s, accepts);
    case ReadDesc => ReadDescKeeps(s, accepts);
    case Check => CheckKeeps(s, accepts);
    case CopyByte => CopyByteKeeps(s, accepts);
    case Advance => AdvanceKeeps(s, accepts);
    case LoadFill => LoadFillKeeps(s, accepts);
    case WriteFill => WriteFillKeeps(s, accepts);
    case PublishFill => PublishFillKeeps(s, accepts);
    case Take => TakeKeeps(s, accepts);
    case Scribble(f, at, data) => ScribbleKeeps(s, f, at, data, accepts);
    case Deliver(f, at, data) => DeliverKeeps(s, f, at, data, accepts);
    case DeliverCorrupt(f, desc) => DeliverCorruptKeeps(s, f, desc, accepts);
  }

  lemma {:induction false} RunKeeps(s: State, es: seq<Event>, accepts: seq<byte> -> bool)
    requires Initial(s)
    ensures Inv(Run(s, es, accepts), accepts)
    decreases |es|
  {
    if es == [] {
      FrameSetFacts(FILL_SIZE);
      assert s.pushed[0..] == s.pushed;
    } else {
      RunKeeps(s, es[..|es| - 1], accepts);
      StepKeeps(Run(s, es[..|es| - 1], accepts), es[|es| - 1], accepts);
    }
  }

  lemma FillIsFifo(s: State)
    requires Shaped(s) && FillInv(s)
    ensures FillEntries(s) == s.pushed[s.taken..]
  {
    RingLength(s.fill, s.pushed, s.taken, FILL_SIZE);
    forall i | 0 <= i < |s.pushed| - s.taken
      ensures FillEntries(s)[i] == s.pushed[s.taken + i]
    {
      RingEntries(s.fill, s.pushed, s.taken, FILL_SIZE, i);
    }
  }

  lemma RxIsFifo(s: State)
    requires Shaped(s) && RxInv(s)
    ensures RxEntries(s) == Descs(s.published[s.consumed..])
  {
    RingLength(s.rx, Descs(s.published), s.consumed, RX_SIZE);
    forall i | 0 <= i < |s.published| - s.consumed
      ensures RxEntries(s)[i] == s.published[s.consumed + i].desc
    {
      RingEntries(s.rx, Descs(s.published), s.consumed, RX_SIZE, i);
    }
  }

  /** The ring memory holds exactly the entries pushed and not yet taken, in order,
      however often the 32-bit counters wrapped. */
  lemma RingsAreFifo(s: State)
    requires Shaped(s) && FillInv(s) && RxInv(s)
    ensures FillEntries(s) == s.pushed[s.taken..]
    ensures RxEntries(s) == Descs(s.published[s.consumed..])
  {
    FillIsFifo(s);
    RxIsFifo(s);
  }

  /** Main ownership theorem: in every interleaving, the frames found in the fill ring
      memory, held by the kernel, waiting in the rx ring, in the reader's hands and
      retired behind corrupt descriptors are together frames 0 .. 2047, each exactly
      once; the retired ones number the corrupt descriptors skipped; nothing is lost. */
  lemma FrameOwnership(s: State, es: seq<Event>, accepts: seq<byte> -> bool)
    requires Initial(s)
    ensures
      var t := Run(s, es, accepts);
      && t.consumed <= |t.published|
      && RxEntries(t) == Descs(t.published[t.consumed..])
      && multiset(FillEntries(t)) + t.held + multiset(Frames(t.published[t.consumed..])) + ReaderHeld(t) + t.retired
         == multiset(FrameSet(FILL_SIZE))
      && |FillEntries(t)| + |t.held| + |RxEntries(t)| + |ReaderHeld(t)| == FILL_SIZE - |t.retired|
      && |t.retired| == CorruptCount(t.published[..t.consumed])
      && t.lost == multiset{}
  {
    var t := Run(s, es, accepts);
    RunKeeps(s, es, accepts);
    RingsAreFifo(t);
    FrameSetFacts(FILL_SIZE);
    var m := multiset(FillEntries(t)) + t.held + multiset(Frames(t.published[t.consumed..])) + ReaderHeld(t) + t.retired;
    assert m == Ownership(t);
    assert |m| == FILL_SIZE;
  }

  /** Main recycling theorem: whenever the reader recycles, it sees a free fill slot. */
  lemma RecycleAlwaysHasRoom(s: State, es: seq<Event>, accepts: seq<byte> -> bool)
    requires Initial(s)
    ensures
      var t := Run(s, es, accepts);
      t.reader.Recycling? ==>
        && Minus(t.reader.fillProd, t.reader.fillCons) < FILL_SIZE
        && DoWriteFill(t).reader.Publishing?
  {
    RunKeeps(s, es, accepts);
    WriteFillKeeps(Run(s, es, accepts), accepts);
  }

  /** Main delivery theorem: the packets examined are the kernel's well-formed
      deliveries, byte for byte, in order, exactly once; those returned are exactly the
      ones the filter accepts (the one in hand still to come). */
  lemma FifoDelivery(s: State, es: seq<Event>, accepts: seq<byte> -> bool)
    requires Initial(s)
    ensures
      var t := Run(s, es, accepts);
      && t.consumed <= |t.published| <= t.consumed + RX_SIZE
      && t.examined == Packets(t.published[..t.consumed])
      && (ReaderHeld(t) == multiset{} ==> t.returned == Matching(t.examined, accepts))
      && (ReaderHeld(t) != multiset{} ==>
            && t.examined != []
            && t.returned == Matching(t.examined[..|t.examined| - 1], accepts))
  {
    RunKeeps(s, es, accepts);
  }

  /** Main isolation theorem: while the reader copies out of a frame, the kernel neither
      holds that frame nor can get it from the fill ring, and the bytes copied so far
      are the delivered ones. */
  lemma NoCopyFromKernelFrame(s: State, es: seq<Event>, accepts: seq<byte> -> bool)
    requires Initial(s)
    ensures
      var t := Run(s, es, accepts);
      t.reader.Copying? ==>
        && t.consumed < |t.published|
        && t.reader.data <= t.published[t.consumed].data
        && FrameOf(t.reader.desc) !in t.held
        && FrameOf(t.reader.desc) !in FillEntries(t)
  {
    var t := Run(s, es, accepts);
    RunKeeps(s, es, accepts);
    RingsAreFifo(t);
    if t.reader.Copying? {
      var f := t.published[t.consumed].frame;
      assert Intact(t.published[t.consumed], t.umem);
      PendingFrame(t.published, t.consumed, t.consumed);
      OwnedOnce(t, f);
      assert f !in multiset(FillEntries(t));
    }
  }

  // ----- progress

  /** The reader never overlooks a published descriptor, however far the counters wrapped. */
  lemma PublishedIsFetched(s: State, accepts: seq<byte> -> bool)
    requires Inv(s, accepts) && s.reader == Polling
    ensures s.consumed < |s.published| ==> Step(s, Load, accepts) == s.(reader := Loaded(s.rx.cons))
    ensures s.consumed == |s.published| ==> Step(s, Load, accepts) == s
  {
    RingLength(s.rx, Descs(s.published), s.consumed, RX_SIZE);
  }

  /** The reader's next step, in program order. */
  function NextOf(r: Reader): Event {
    match r
    case Polling => Load
    case Loaded(_) => ReadDesc
    case Checking(_, _) => Check
    case Copying(_, desc, data) => if |data| < desc.length then CopyByte else Advance
    case Examining(_, _) => LoadFill
    case Recycling(_, _, _, _) => WriteFill
    case Publishing(_, _, _) => PublishFill
  }

  /** How many steps the reader is away from polling again, at most. */
  function Distance(r: Reader, length: nat): nat {
    match r
    case Polling => 0
    case Publishing(_, _, _) => 1
    case Recycling(_, _, _, _) => 2
    case Examining(_, _) => 3
    case Copying(_, _, data) => 4 + if |data| < length then length - |data| else 0
    case Checking(_, _) => 5 + length
    case Loaded(_) => 6 + length
  }

  /** The length of the packet the reader is at. */
  function LengthAt(s: State): nat {
    if s.consumed < |s.published| then s.published[s.consumed].desc.length else 0
  }

  /** The reader at `r`, with `consumed` counting, went on to t. */
  ghost predicate MovedOn(s: State, t: State) {
    && Distance(t.reader, LengthAt(s)) < Distance(s.reader, LengthAt(s))
    && t.consumed == s.consumed + (if (s.reader.Checking? && t.reader == Polling) || t.reader.Examining? then 1 else 0)
    && (s.reader.Checking? && s.consumed < |s.published| ==> (t.reader == Polling <==> !s.published[s.consumed].good))
  }

  lemma CheckMoves(s: State, accepts: seq<byte> -> bool)
    requires Inv(s, accepts) && s.reader.Checking?
    ensures MovedOn(s, DoCheck(s))
    ensures DoCheck(s).reader.Copying? ==> DoCheck(s).reader.data == []
  {
    assert Intact(s.published[s.consumed], s.umem);
  }

  lemma CopyMoves(s: State, accepts: seq<byte> -> bool)
    requires Inv(s, accepts) && s.reader.Copying?
    ensures |s.reader.data| <= s.reader.desc.length
    ensures MovedOn(s, if |s.reader.data| < s.reader.desc.length then DoCopyByte(s) else DoAdvance(s))
  {
    var d := s.published[s.consumed];
    assert Intact(d, s.umem);
    if |s.reader.data| < d.desc.length { NextByte(d, s.umem, |s.reader.data|); }
  }

  lemma FillMoves(s: State, accepts: seq<byte> -> bool)
    requires Inv(s, accepts) && s.reader.Recycling?
    ensures MovedOn(s, DoWriteFill(s))
  {
    WriteFillRing(s, DoWriteFill(s));
  }

  /** Main progress theorem: wherever it stands, the reader's next step is enabled and
      brings it nearer to polling again. It consumes one descriptor on the way: where a
      corrupt one is skipped, or where the copy of a good one ends. */
  lemma ReaderMovesOn(s: State, accepts: seq<byte> -> bool)
    requires Inv(s, accepts) && s.reader != Polling
    ensures MovedOn(s, Step(s, NextOf(s.reader), accepts))
  {
    match s.reader
    case Polling =>
    case Loaded(_) => assert MovedOn(s, DoReadDesc(s));
    case Checking(_, _) => CheckMoves(s, accepts);
    case Copying(_, _, _) => CopyMoves(s, accepts);
    case Examining(_, _) => assert MovedOn(s, DoLoadFill(s));
    case Recycling(_, _, _, _) => FillMoves(s, accepts);
    case Publishing(_, _, _) => assert MovedOn(s, DoPublishFill(s, accepts));
  }

  /** The kernel's own steps are not held up either: it takes the oldest fill entry while
      there is one, and delivers into a frame it holds while the rx ring has a free slot. */
  lemma KernelMovesOn(s: State, f: nat, at: nat, data: seq<byte>, accepts: seq<byte> -> bool)
    requires Inv(s, accepts)
    ensures s.taken < |s.pushed| ==> Step(s, Take, accepts).held == s.held + multiset{s.pushed[s.taken]}
    ensures f in s.held && at < 2048 && at + |data| <= 2048 && |s.published| - s.consumed < 512 ==>
              Step(s, Deliver(f, at, data), accepts).published
              == s.published + [Delivery(f, Desc(f + at, |data|), data, true)]
  {
    RingLength(s.fill, s.pushed, s.taken, FILL_SIZE);
    RingLength(s.rx, Descs(s.published), s.consumed, RX_SIZE);
    if s.taken < |s.pushed| { RingHead(s.fill, s.pushed, s.taken, FILL_SIZE); }
    OwnedOnce(s, f);
  }
}
