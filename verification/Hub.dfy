/** The WebSocket hub: an event loop that registers clients, unregisters them, and copies
    every broadcast into each client's bounded send channel, dropping clients that fall
    behind. Sending on a closed channel, or closing it twice, panics. */
module Hub {

  const SEND_BUFFER := 256
  const BROADCAST_BUFFER := 8192

  /** A client's send channel; `received` is what its write pump has taken, and the hub's
      log entries from `since` up to `until` are those that were put in. */
  datatype Chan<M> = Chan(queue: seq<M>, closed: bool, received: seq<M>, since: nat, until: nat)

  /** `log` is the sequence of broadcasts the loop has taken, `accepted` those queued for it. */
  datatype State<M> = State(
    clients: set<nat>, chans: map<nat, Chan<M>>, pending: seq<M>, log: seq<M>, accepted: seq<M>, panicked: bool)

  datatype Event<M> = Broadcast(m: M) | Register(c: nat) | Unregister(c: nat) | Dispatch | Deliver(c: nat)

  function Closed<M>(ch: Chan<M>): Chan<M> { ch.(closed := true) }

  /** The non-blocking send of the loop: a full channel is closed instead. */
  function Offered<M>(ch: Chan<M>, m: M): Chan<M> {
    if |ch.queue| < SEND_BUFFER then ch.(queue := ch.queue + [m], until := ch.until + 1) else Closed(ch)
  }

  /** One broadcast taken by the loop, given to every registered client. */
  function Fanout<M>(s: State<M>, m: M): State<M>
    requires s.clients <= s.chans.Keys
  {
    s.(chans := (map c | c in s.chans :: if c in s.clients then Offered(s.chans[c], m) else s.chans[c]),
       clients := (set c | c in s.clients && |s.chans[c].queue| < SEND_BUFFER),
       log := s.log + [m],
       panicked := s.panicked || exists c :: c in s.clients && s.chans[c].closed)
  }

  /** One step; a step that is not enabled changes nothing. A client's pumps start after its
      registration, so only known clients unregister or receive. */
  function Step<M>(s: State<M>, e: Event<M>): (t: State<M>)
    requires s.clients <= s.chans.Keys
    ensures t.clients <= t.chans.Keys
  {
    match e
    case Broadcast(m) =>
      if |s.pending| < BROADCAST_BUFFER then s.(pending := s.pending + [m], accepted := s.accepted + [m]) else s
    case Register(c) =>
      if c in s.chans then s
      else s.(clients := s.clients + {c}, chans := s.chans[c := Chan([], false, [], |s.log|, |s.log|)])
    case Unregister(c) =>
      if c in s.clients then
        s.(clients := s.clients - {c}, chans := s.chans[c := Closed(s.chans[c])],
           panicked := s.panicked || s.chans[c].closed)
      else s
    case Dispatch =>
      if s.pending == [] then s else Fanout(s.(pending := s.pending[1..]), s.pending[0])
    case Deliver(c) =>
      if c in s.chans && s.chans[c].queue != [] then
        var ch := s.chans[c];
        s.(chans := s.chans[c := ch.(queue := ch.queue[1..], received := ch.received + [ch.queue[0]])])
      else s
  }

  function Start<M>(): State<M> { State({}, map[], [], [], [], false) }

  // ----- the loop as an object

  class HubLoop<M> {
    var clients: set<nat>
    var chans: map<nat, Chan<M>>
    var pending: seq<M>
    var panicked: bool
    ghost var log: seq<M>
    ghost var accepted: seq<M>

    ghost function View(): State<M>
      reads this
    {
      State(clients, chans, pending, log, accepted, panicked)
    }

    constructor ()
      ensures View() == Start()
    {
      clients, chans, pending, panicked := {}, map[], [], false;
      log, accepted := [], [];
    }

    /** Close(client.send) */
    method CloseSend(c: nat)
      requires c in chans
      modifies `chans, `panicked
      ensures chans == old(chans)[c := Closed(old(chans)[c])]
      ensures panicked == (old(panicked) || old(chans)[c].closed)
    {
      panicked := panicked || chans[c].closed;
      chans := chans[c := chans[c].(closed := true)];
    }

    method OnUnregister(c: nat)
      requires clients <= chans.Keys
      modifies this
      ensures View() == Step(old(View()), Unregister(c))
    {
      if c in clients {
        clients := clients - {c};
        CloseSend(c);
      }
    }

    /** The inner select of the broadcast case. */
    method OfferTo(c: nat, m: M)
      requires c in chans
      modifies `chans, `clients, `panicked
      ensures chans == old(chans)[c := Offered(old(chans)[c], m)]
      ensures clients == if |old(chans)[c].queue| < SEND_BUFFER then old(clients) else old(clients) - {c}
      ensures panicked == (old(panicked) || old(chans)[c].closed)
    {
      if |chans[c].queue| < SEND_BUFFER {
        panicked := panicked || chans[c].closed;
        chans := chans[c := chans[c].(queue := chans[c].queue + [m], until := chans[c].until + 1)];
      } else {
        CloseSend(c);
        clients := clients - {c};
      }
    }

    /** The broadcast case of Run: visits the clients in any order. */
    method OnBroadcast(m: M)
      requires clients <= chans.Keys
      modifies this
      ensures View() == Fanout(old(View()), m)
    {
      var todo := clients;
      ghost var before := View();
      assert Visited(before, m, todo, before);
      while todo != {}
        modifies `chans, `clients, `panicked
        invariant Visited(before, m, todo, View())
        decreases |todo|
      {
        var c :| c in todo;
        ghost var now := View();
        OfferTo(c, m);
        VisitOne(before, m, todo, now, c, View());
        todo := todo - {c};
      }
      VisitedAll(before, m, View());
      log := log + [m];
    }
  }

  /** The loop over the clients has served all but `todo`. */
  ghost predicate Visited<M>(before: State<M>, m: M, todo: set<nat>, now: State<M>) {
    && todo <= now.clients <= before.clients <= before.chans.Keys
    && now == before.(clients := now.clients, chans := now.chans, panicked := now.panicked)
    && now.chans.Keys == before.chans.Keys
    && (forall c :: c in before.chans ==>
          now.chans[c] == if c in before.clients && c !in todo then Offered(before.chans[c], m) else before.chans[c])
    && (forall c :: c in before.clients && c !in todo ==>
          (c in now.clients <==> |before.chans[c].queue| < SEND_BUFFER))
    && now.panicked == (before.panicked || exists c :: c in before.clients && c !in todo && before.chans[c].closed)
  }

  lemma VisitOne<M>(before: State<M>, m: M, todo: set<nat>, now: State<M>, c: nat, after: State<M>)
    requires Visited(before, m, todo, now) && c in todo
    requires after == now.(
               chans := now.chans[c := Offered(now.chans[c], m)],
               clients := (if |now.chans[c].queue| < SEND_BUFFER then now.clients else now.clients - {c}),
               panicked := now.panicked || now.chans[c].closed)
    ensures Visited(before, m, todo - {c}, after)
  {
  }

  lemma VisitedAll<M>(before: State<M>, m: M, now: State<M>)
    requires Visited(before, m, {}, now)
    ensures now.(log := before.log + [m]) == Fanout(before, m)
  {
    assert now.chans == Fanout(before, m).chans;
    assert now.clients == Fanout(before, m).clients;
  }

  // ----- delivery over whole runs

  ghost predicate ChanInv<M>(s: State<M>, c: nat)
    requires c in s.chans
  {
    var ch := s.chans[c];
    && ch.since <= ch.until <= |s.log|
    && ch.received + ch.queue == s.log[ch.since..ch.until]
    && |ch.queue| <= SEND_BUFFER
    && (c in s.clients <==> !ch.closed)
    && (c in s.clients ==> ch.until == |s.log|)
  }

  ghost predicate Inv<M>(s: State<M>) {
    && s.clients <= s.chans.Keys
    && (forall c :: c in s.chans ==> ChanInv(s, c))
    && s.log + s.pending == s.accepted && |s.pending| <= BROADCAST_BUFFER
    && !s.panicked
  }

  lemma FanoutChan<M>(s: State<M>, m: M, c: nat)
    requires s.clients <= s.chans.Keys && c in s.chans && ChanInv(s, c)
    ensures ChanInv(Fanout(s, m), c)
  {
    var ch, t := s.chans[c], Fanout(s, m);
    assert t.log[ch.since..ch.until] == s.log[ch.since..ch.until];
    if c in s.clients && |ch.queue| < SEND_BUFFER {
      assert t.log[ch.since..ch.until + 1] == s.log[ch.since..ch.until] + [m];
      assert ch.received + (ch.queue + [m]) == ch.received + ch.queue + [m];
    }
  }

  lemma DispatchKeeps<M>(s: State<M>)
    requires Inv(s) && s.pending != []
    ensures Inv(Step(s, Dispatch))
  {
    var u, m := s.(pending := s.pending[1..]), s.pending[0];
    var t := Fanout(u, m);
    forall c | c in t.chans
      ensures ChanInv(t, c)
    {
      assert ChanInv(s, c) && ChanInv(u, c);
      FanoutChan(u, m, c);
    }
    assert s.log + s.pending == (s.log + [m]) + s.pending[1..];
    assert forall c :: c in s.clients ==> ChanInv(s, c);
  }

  lemma DeliverKeeps<M>(s: State<M>, c: nat)
    requires Inv(s) && c in s.chans && s.chans[c].queue != []
    ensures Inv(Step(s, Deliver(c)))
  {
    var t, ch := Step(s, Deliver(c)), s.chans[c];
    assert ChanInv(s, c);
    assert ch.received + ch.queue == ch.received + [ch.queue[0]] + ch.queue[1..];
    forall d | d in t.chans
      ensures ChanInv(t, d)
    {
      assert ChanInv(s, d);
    }
  }

  lemma StepKeeps<M>(s: State<M>, e: Event<M>)
    requires Inv(s)
    ensures Inv(Step(s, e))
  {
    match e
    case Broadcast(m) =>
      var t := Step(s, e);
      assert s.log + (s.pending + [m]) == s.log + s.pending + [m];
      assert forall c :: c in t.chans ==> ChanInv(s, c) && ChanInv(t, c);
    case Register(c) =>
      var t := Step(s, e);
      assert forall d :: d in s.chans ==> ChanInv(s, d) && ChanInv(t, d);
    case Unregister(c) =>
      var t := Step(s, e);
      assert forall d :: d in s.chans ==> ChanInv(s, d) && ChanInv(t, d);
    case Dispatch =>
      if s.pending != [] { DispatchKeeps(s); }
    case Deliver(c) =>
      if c in s.chans && s.chans[c].queue != [] { DeliverKeeps(s, c); }
  }

  function Run<M>(es: seq<Event<M>>): (s: State<M>)
    ensures s.clients <= s.chans.Keys
  {
    if es == [] then Start() else Step(Run(es[..|es| - 1]), es[|es| - 1])
  }

  /** Main hub theorem: over every run, what a client received and has queued is a gap-free
      block of the hub's broadcast log that starts at its registration and, while it is
      registered, reaches to its end; the log is the accepted broadcasts in order; no send
      channel is ever closed twice or sent on after it was closed, also when an overflow
      eviction is followed by the client's own unregister. */
  lemma HubDelivery<M>(es: seq<Event<M>>)
    ensures
      var s := Run(es);
      && !s.panicked && s.log <= s.accepted
      && forall c :: c in s.chans ==>
           var ch := s.chans[c];
           && ch.since <= ch.until <= |s.log|
           && ch.received + ch.queue == s.log[ch.since..ch.until]
           && (c in s.clients ==> ch.until == |s.log| && !ch.closed)
  {
    RunKeeps(es);
    var s := Run(es);
    assert forall c :: c in s.chans ==> ChanInv(s, c);
  }

  lemma {:induction false} RunKeeps<M>(es: seq<Event<M>>)
    ensures Inv(Run(es))
    decreases |es|
  {
    if es != [] {
      RunKeeps(es[..|es| - 1]);
      StepKeeps(Run(es[..|es| - 1]), es[|es| - 1]);
    }
  }

  /** A client evicted for being slow and then unregistered: the second close is skipped. */
  lemma EvictThenUnregister<M>(s: State<M>, m: M, c: nat)
    requires Inv(s) && c in s.clients && |s.chans[c].queue| == SEND_BUFFER && s.pending == [m]
    ensures
      var t := Step(s, Dispatch);
      && c !in t.clients && t.chans[c].closed && t.chans[c].queue == s.chans[c].queue
      && Step(t, Unregister(c)) == t && !t.panicked
  {
    DispatchKeeps(s);
  }

  // ----- who is registered, and what each step delivers

  /** The loop takes a broadcast and finds the client's channel full. */
  predicate Overflows<M>(s: State<M>, e: Event<M>, c: nat) {
    e.Dispatch? && s.pending != [] && c in s.clients && c in s.chans && |s.chans[c].queue| == 256
  }

  /** A client is registered from its registration on until it unregisters or its channel
      overflows, and its channel is closed at that moment. */
  lemma MembershipExactly<M>(s: State<M>, e: Event<M>, c: nat)
    requires Inv(s)
    ensures
      var t := Step(s, e);
      && (c in t.clients <==> (e == Register(c) && c !in s.chans)
                              || (c in s.clients && e != Unregister(c) && !Overflows(s, e, c)))
      && (c in s.clients && c !in t.clients ==> t.chans[c].closed && t.chans[c].queue == s.chans[c].queue)
  {
    if c in s.clients { assert ChanInv(s, c); }
  }

  /** While it is not full, the broadcast channel takes every message; the loop takes the
      oldest one and puts it last in the channel of every registered client with room; and
      a client receives its messages in order. */
  lemma DeliveryExactly<M>(s: State<M>, m: M, c: nat)
    requires Inv(s)
    ensures Step(s, Broadcast(m)).accepted == if |s.pending| < 8192 then s.accepted + [m] else s.accepted
    ensures s.pending != [] ==> Step(s, Dispatch).log == s.log + [s.pending[0]]
    ensures s.pending != [] && c in s.clients && |s.chans[c].queue| < 256 ==>
              Step(s, Dispatch).chans[c].queue == s.chans[c].queue + [s.pending[0]]
    ensures c in s.chans && s.chans[c].queue != [] ==>
              Step(s, Deliver(c)).chans[c].received == s.chans[c].received + [s.chans[c].queue[0]]
  {
  }

  /** Event i of a run registers the client, and nothing later removes it. */
  ghost predicate RegisteredAt<M>(es: seq<Event<M>>, i: nat, c: nat) {
    && i < |es| && es[i] == Register(c) && c !in Run(es[..i]).chans
    && forall k :: i < k < |es| ==> es[k] != Unregister(c) && !Overflows(Run(es[..k]), es[k], c)
  }

  lemma RegisteredFront<M>(es: seq<Event<M>>, i: nat, c: nat)
    requires es != [] && i < |es| - 1
    ensures RegisteredAt(es, i, c) <==>
            RegisteredAt(es[..|es| - 1], i, c) && es[|es| - 1] != Unregister(c)
            && !Overflows(Run(es[..|es| - 1]), es[|es| - 1], c)
  {
    var front := es[..|es| - 1];
    assert forall k :: 0 <= k < |front| ==> front[..k] == es[..k] && front[k] == es[k];
  }

  /** Main membership theorem, over whole runs. */
  lemma {:induction false} RegisteredExactly<M>(es: seq<Event<M>>, c: nat)
    ensures c in Run(es).clients <==> exists i: nat :: RegisteredAt(es, i, c)
    decreases |es|
  {
    if es != [] {
      var n := |es| - 1;
      var front, e := es[..n], es[n];
      RegisteredExactly(front, c);
      RunKeeps(front);
      MembershipExactly(Run(front), e, c);
      forall i: nat | i < n
        ensures RegisteredAt(es, i, c) <==>
                RegisteredAt(front, i, c) && e != Unregister(c) && !Overflows(Run(front), e, c)
      {
        RegisteredFront(es, i, c);
      }
      RegisteredLast(es, c);
    }
  }

  lemma RegisteredLast<M>(es: seq<Event<M>>, c: nat)
    requires es != []
    requires forall i: nat :: i < |es| - 1 ==>
               (RegisteredAt(es, i, c) <==>
                  RegisteredAt(es[..|es| - 1], i, c) && es[|es| - 1] != Unregister(c)
                  && !Overflows(Run(es[..|es| - 1]), es[|es| - 1], c))
    ensures
      var front, e := es[..|es| - 1], es[|es| - 1];
      (exists i: nat :: RegisteredAt(es, i, c)) <==>
      (e == Register(c) && c !in Run(front).chans)
      || ((exists i: nat :: RegisteredAt(front, i, c)) && e != Unregister(c) && !Overflows(Run(front), e, c))
  {
    var n := |es| - 1;
    var front, e := es[..n], es[n];
    assert RegisteredAt(es, n, c) <==> e == Register(c) && c !in Run(front).chans;
    if i: nat :| RegisteredAt(front, i, c) {
      assert e != Unregister(c) && !Overflows(Run(front), e, c) ==> RegisteredAt(es, i, c);
    }
  }
}
