/** The agent's outbound token bucket. Times are nanoseconds, the rate is bytes per second.
    The refill clock is read before the sleep and a negative bucket is reset to zero after
    it, so the time slept is credited once by the reset and once more by the next refill. */
module Throttle {
  import opened Bytes

  const MAX_SLEEP := 2_000_000_000

  /** Tokens, the last refill time, and the history of the connection. */
  datatype Bucket = Bucket(tokens: int, refillAt: int, sent: nat, slept: nat, flushes: nat)

  /** One flush that carried payload: when the clock was read and how many bytes it sent. */
  datatype Send = Send(now: int, bytes: nat)

  function Refilled(rate: nat, b: Bucket, now: int): int {
    var t := b.tokens + rate * (now - b.refillAt) / SECOND;
    if t > rate then rate else t
  }

  /** The sleep a deficit asks for, before the cap. */
  function Deficit(rate: nat, b: Bucket, s: Send): nat
    requires rate > 0
  {
    var t := Refilled(rate, b, s.now) - s.bytes;
    if t < 0 then -t * SECOND / rate else 0
  }

  /** The throttle block of flush. It runs only for a positive rate and a non-empty batch. */
  function Charge(rate: nat, b: Bucket, s: Send): Bucket {
    if rate == 0 || s.bytes == 0 then b
    else
      var t := Refilled(rate, b, s.now) - s.bytes;
      var sleep := Deficit(rate, b, s);
      Bucket(if t < 0 then 0 else t, s.now, b.sent + s.bytes,
             b.slept + (if sleep > MAX_SLEEP then MAX_SLEEP else sleep), b.flushes + 1)
  }

  /** The bucket as the loop's local variables. */
  class TokenBucket {
    const rate: nat
    var tokens: int
    var refillAt: int
    ghost var sent: nat
    ghost var slept: nat
    ghost var flushes: nat

    ghost function View(): Bucket
      reads this
    {
      Bucket(tokens, refillAt, sent, slept, flushes)
    }

    constructor (rate: nat, now: int)
      ensures this.rate == rate && View() == Bucket(0, now, 0, 0, 0)
    {
      this.rate := rate;
      tokens, refillAt := 0, now;
      sent, slept, flushes := 0, 0, 0;
    }

    /** Accounts for a batch and returns how long to sleep. */
    method AfterWrite(now: int, batchBytes: nat) returns (sleep: nat)
      requires refillAt <= now
      modifies this
      ensures View() == Charge(rate, old(View()), Send(now, batchBytes))
      ensures slept == old(slept) + sleep && sleep <= 2 * SECOND
      ensures rate == 0 || batchBytes == 0 ==> sleep == 0 && View() == old(View())
      ensures rate > 0 && batchBytes > 0 ==>
                sleep == var d := Deficit(rate, old(View()), Send(now, batchBytes)); if d > 2 * SECOND then 2 * SECOND else d
    {
      sleep := 0;
      if rate > 0 && batchBytes > 0 {
        var elapsed := now - refillAt;
        refillAt := now;
        tokens := tokens + rate * elapsed / SECOND;
        if tokens > rate {
          tokens := rate;
        }
        tokens := tokens - batchBytes;
        if tokens < 0 {
          sleep := -tokens * SECOND / rate;
          if sleep > MAX_SLEEP {
            sleep := MAX_SLEEP;
          }
          tokens := 0;
        }
        sent, slept, flushes := sent + batchBytes, slept + sleep, flushes + 1;
      }
    }
  }

  ghost function Run(rate: nat, start: int, ss: seq<Send>): Bucket {
    if ss == [] then Bucket(0, start, 0, 0, 0)
    else Charge(rate, Run(rate, start, ss[..|ss| - 1]), ss[|ss| - 1])
  }

  /** No sleep goes over the safety cap. */
  ghost predicate Uncapped(rate: nat, start: int, ss: seq<Send>)
    requires rate > 0
  {
    ss != [] ==>
      var b, s := Run(rate, start, ss[..|ss| - 1]), ss[|ss| - 1];
      Uncapped(rate, start, ss[..|ss| - 1]) && (s.bytes > 0 ==> Deficit(rate, b, s) <= MAX_SLEEP)
  }

  lemma Distribute(rate: nat, a: int, b: int)
    ensures rate * (a + b) == rate * a + rate * b
  {
  }

  lemma Scale(rate: nat, a: int, b: int)
    requires a <= b
    ensures rate * a <= rate * b
  {
    Distribute(rate, a, b - a);
  }

  function BytesOf(ss: seq<Send>): nat { if ss == [] then 0 else BytesOf(ss[..|ss| - 1]) + ss[|ss| - 1].bytes }

  /** The time of the last flush that carried payload. */
  function LastSend(start: int, ss: seq<Send>): int {
    if ss == [] then start
    else if ss[|ss| - 1].bytes > 0 then ss[|ss| - 1].now
    else LastSend(start, ss[..|ss| - 1])
  }

  /** A run counts every byte, and the refill clock stands at the last payload. */
  lemma {:induction false} RunCounts(rate: nat, start: int, ss: seq<Send>)
    requires rate > 0
    ensures Run(rate, start, ss).sent == BytesOf(ss) && Run(rate, start, ss).refillAt == LastSend(start, ss)
    decreases |ss|
  {
    if ss != [] { RunCounts(rate, start, ss[..|ss| - 1]); }
  }

  // ----- the exact account of a run

  /** What a run did not charge or credit: `spilled` tokens cut by the one-second cap,
      `forgiven` nanoseconds of sleep cut by the 2 s cap, and the remainders of the two
      divisions, `lost` by refills and `gained` by sleeps. */
  datatype Ledger = Ledger(spilled: nat, forgiven: nat, lost: nat, gained: nat)

  function Over(x: int, bound: int): nat { if x > bound then x - bound else 0 }

  function Booked(rate: nat, b: Bucket, s: Send, l: Ledger): Ledger
    requires rate > 0
  {
    if s.bytes == 0 then l
    else
      var earned := rate * (s.now - b.refillAt);
      var short := Over(s.bytes, Refilled(rate, b, s.now));
      Ledger(l.spilled + Over(b.tokens + earned / SECOND, rate), l.forgiven + Over(Deficit(rate, b, s), MAX_SLEEP),
             l.lost + earned % SECOND, l.gained + short * SECOND % rate)
  }

  ghost function LedgerOf(rate: nat, start: int, ss: seq<Send>): Ledger
    requires rate > 0
  {
    if ss == [] then Ledger(0, 0, 0, 0)
    else
      var front := ss[..|ss| - 1];
      Booked(rate, Run(rate, start, front), ss[|ss| - 1], LedgerOf(rate, start, front))
  }

  /** Every byte sent, kept or spilled was paid for by elapsed time, by time slept or by
      sleep forgiven. */
  ghost predicate Balanced(rate: nat, start: int, b: Bucket, l: Ledger) {
    SECOND * (b.sent + b.tokens + l.spilled) + l.lost
    == rate * (b.refillAt - start + b.slept + l.forgiven) + l.gained
  }

  /** Each division loses or gains less than one unit per flush. */
  ghost predicate SmallRemainders(rate: nat, b: Bucket, l: Ledger) {
    l.lost <= (SECOND - 1) * b.flushes && l.gained <= (rate - 1) * b.flushes
  }

  /** The tokens of one flush: earned, spilled, charged, and lifted back to zero. */
  lemma FlushTokens(rate: nat, b: Bucket, s: Send)
    requires rate > 0 && s.bytes > 0
    ensures
      var earned, short := rate * (s.now - b.refillAt), Over(s.bytes, Refilled(rate, b, s.now));
      && Charge(rate, b, s).tokens + s.bytes + Over(b.tokens + earned / SECOND, rate)
         == b.tokens + earned / SECOND + short
      && Deficit(rate, b, s) == short * SECOND / rate
      && Charge(rate, b, s).slept + Over(Deficit(rate, b, s), MAX_SLEEP) == b.slept + short * SECOND / rate
  {
  }

  lemma BookedBalances(rate: nat, start: int, b: Bucket, s: Send, l: Ledger)
    requires rate > 0 && s.bytes > 0 && Balanced(rate, start, b, l)
    ensures Balanced(rate, start, Charge(rate, b, s), Booked(rate, b, s, l))
  {
    var c, m := Charge(rate, b, s), Booked(rate, b, s, l);
    var elapsed := s.now - b.refillAt;
    var earned, short := rate * elapsed, Over(s.bytes, Refilled(rate, b, s.now));
    var sleep := short * SECOND / rate;
    FlushTokens(rate, b, s);
    assert earned == SECOND * (earned / SECOND) + earned % SECOND;
    assert short * SECOND == rate * sleep + short * SECOND % rate;
    AddUp(rate, b.refillAt - start + b.slept + l.forgiven, elapsed, sleep,
          c.refillAt - start + c.slept + m.forgiven);
    assert m.lost == l.lost + earned % SECOND && m.gained == l.gained + short * SECOND % rate;
    assert c.sent + c.tokens + m.spilled == b.sent + b.tokens + l.spilled + earned / SECOND + short;
  }

  lemma AddUp(rate: nat, paid: int, elapsed: int, sleep: int, total: int)
    requires total == paid + elapsed + sleep
    ensures rate * total == rate * paid + rate * elapsed + rate * sleep
  {
  }

  lemma BookedRemainders(rate: nat, b: Bucket, s: Send, l: Ledger)
    requires rate > 0 && s.bytes > 0 && SmallRemainders(rate, b, l)
    ensures SmallRemainders(rate, Charge(rate, b, s), Booked(rate, b, s, l))
  {
    var short := Over(s.bytes, Refilled(rate, b, s.now));
    assert short * SECOND % rate <= rate - 1;
    Distribute(rate - 1, b.flushes, 1);
  }

  /** Main throttle theorem: the account balances after every run, capped or not. */
  lemma {:induction false} LedgerBalances(rate: nat, start: int, ss: seq<Send>)
    requires rate > 0
    ensures Balanced(rate, start, Run(rate, start, ss), LedgerOf(rate, start, ss))
    ensures SmallRemainders(rate, Run(rate, start, ss), LedgerOf(rate, start, ss))
    decreases |ss|
  {
    if ss != [] {
      var front := ss[..|ss| - 1];
      LedgerBalances(rate, start, front);
      if ss[|ss| - 1].bytes > 0 {
        BookedBalances(rate, start, Run(rate, start, front), ss[|ss| - 1], LedgerOf(rate, start, front));
        BookedRemainders(rate, Run(rate, start, front), ss[|ss| - 1], LedgerOf(rate, start, front));
      }
    }
  }

  lemma BoundFromBalance(
    rate: nat, paid: int, bound: int, credit: int, extra: int, sent: int, kept: int, lost: int, gained: int)
    requires paid - extra == bound - credit && SECOND * (sent + kept) + lost == rate * paid + gained
    ensures SECOND * sent <= rate * bound <==> rate * extra + gained <= rate * credit + SECOND * kept + lost
  {
    Distribute(rate, paid - extra, extra);
    Distribute(rate, bound - credit, credit);
  }

  /** Exactly when a run stays within rate x (elapsed + credit), whatever the credit: the
      time slept and forgiven, paid twice, is covered by the credit, by tokens left and
      by tokens spilled or rounded away. */
  lemma RateBoundExactly(rate: nat, start: int, ss: seq<Send>, credit: int)
    requires rate > 0
    ensures
      var b, l := Run(rate, start, ss), LedgerOf(rate, start, ss);
      SECOND * b.sent <= rate * (b.refillAt - start + credit)
      <==> rate * (b.slept + l.forgiven) + l.gained <= rate * credit + SECOND * (b.tokens + l.spilled) + l.lost
  {
    var b, l := Run(rate, start, ss), LedgerOf(rate, start, ss);
    LedgerBalances(rate, start, ss);
    BoundFromBalance(rate, b.refillAt - start + b.slept + l.forgiven, b.refillAt - start + credit, credit, b.slept + l.forgiven,
                     b.sent, b.tokens + l.spilled, l.lost, l.gained);
  }

  /** Exactly when it stays within rate x (elapsed + slept + credit): then only the sleep
      cut off by the cap is left to cover. */
  lemma SleepBoundExactly(rate: nat, start: int, ss: seq<Send>, credit: int)
    requires rate > 0
    ensures
      var b, l := Run(rate, start, ss), LedgerOf(rate, start, ss);
      SECOND * b.sent <= rate * (b.refillAt - start + b.slept + credit)
      <==> rate * l.forgiven + l.gained <= rate * credit + SECOND * (b.tokens + l.spilled) + l.lost
  {
    var b, l := Run(rate, start, ss), LedgerOf(rate, start, ss);
    LedgerBalances(rate, start, ss);
    BoundFromBalance(rate, b.refillAt - start + b.slept + l.forgiven, b.refillAt - start + b.slept + credit, credit, l.forgiven,
                     b.sent, b.tokens + l.spilled, l.lost, l.gained);
  }

  /** Sleep is forgiven exactly in runs that hit the cap, and the bucket never holds more
      than one second of rate. */
  lemma {:induction false} ForgivenExactly(rate: nat, start: int, ss: seq<Send>)
    requires rate > 0
    ensures LedgerOf(rate, start, ss).forgiven == 0 <==> Uncapped(rate, start, ss)
    ensures 0 <= Run(rate, start, ss).tokens <= rate
    decreases |ss|
  {
    if ss != [] { ForgivenExactly(rate, start, ss[..|ss| - 1]); }
  }

  /** So without a capped sleep the payload sent is at most rate x (elapsed + slept) plus
      one nanosecond of rate per flush. */
  lemma ThrottleBound(rate: nat, start: int, ss: seq<Send>)
    requires rate > 0 && Uncapped(rate, start, ss)
    ensures var b := Run(rate, start, ss);
            && 0 <= b.tokens <= rate
            && SECOND * b.sent <= rate * (b.refillAt - start + b.slept + b.flushes)
  {
    var b := Run(rate, start, ss);
    LedgerBalances(rate, start, ss);
    ForgivenExactly(rate, start, ss);
    Distribute(rate, b.refillAt - start + b.slept, b.flushes);
    Distribute(b.flushes, rate - 1, 1);
  }

  // ----- what a caller can check beforehand

  /** The clock never runs backwards between flushes that carry payload. */
  ghost predicate ClockForward(start: int, ss: seq<Send>) {
    && (forall i :: 0 <= i < |ss| ==> start <= ss[i].now)
    && (forall i, j :: 0 <= i < j < |ss| ==> ss[i].now <= ss[j].now)
  }

  lemma {:induction false} RefillBehind(rate: nat, start: int, ss: seq<Send>, now: int)
    requires rate > 0 && ClockForward(start, ss + [Send(now, 0)])
    ensures Run(rate, start, ss).refillAt <= now
    decreases |ss|
  {
    var all := ss + [Send(now, 0)];
    if ss == [] {
      assert all[0].now == now;
    } else {
      var n := |ss| - 1;
      assert all[n] == ss[n] && all[n + 1].now == now;
      if ss[n].bytes == 0 {
        var front := ss[..n] + [Send(now, 0)];
        assert forall i :: 0 <= i < n ==> front[i] == all[i];
        RefillBehind(rate, start, ss[..n], now);
      }
    }
  }

  lemma DivAtMost(x: nat, d: nat, bound: nat)
    requires d > 0 && x <= d * bound
    ensures x / d <= bound
  {
    assert d * (x / d) <= x;
    if x / d > bound { Scale(d, bound + 1, x / d); Distribute(d, bound, 1); }
  }

  lemma SmallBatchNotCapped(rate: nat, b: Bucket, s: Send)
    requires rate > 0 && 0 <= b.tokens && b.refillAt <= s.now && s.bytes <= 2 * rate
    ensures Deficit(rate, b, s) <= MAX_SLEEP
  {
    Scale(rate, 0, s.now - b.refillAt);
    var t := Refilled(rate, b, s.now) - s.bytes;
    assert Refilled(rate, b, s.now) >= 0;
    if t < 0 {
      assert -t * SECOND <= rate * MAX_SLEEP;
      DivAtMost(-t * SECOND, rate, MAX_SLEEP);
    }
  }

  /** If the clock does not run backwards and no batch is larger than two seconds of rate,
      then no sleep is cut off, so the bounds for uncapped runs hold. */
  lemma {:induction false} SmallBatchesUncapped(rate: nat, start: int, ss: seq<Send>)
    requires rate > 0 && ClockForward(start, ss)
    requires forall i :: 0 <= i < |ss| ==> ss[i].bytes <= 2 * rate
    ensures Uncapped(rate, start, ss)
    decreases |ss|
  {
    if ss != [] {
      var n := |ss| - 1;
      var front, s := ss[..n], ss[n];
      assert forall i :: 0 <= i < n ==> front[i] == ss[i];
      SmallBatchesUncapped(rate, start, front);
      ForgivenExactly(rate, start, front);
      var all := front + [Send(s.now, 0)];
      assert forall i :: 0 <= i < n ==> all[i] == ss[i];
      RefillBehind(rate, start, front, s.now);
      SmallBatchNotCapped(rate, Run(rate, start, front), s);
    }
  }

  // ----- a sender that really sleeps

  /** When the sender is awake again after the run. */
  ghost function AwakeAt(rate: nat, start: int, ss: seq<Send>): int
    requires rate > 0
  {
    if ss == [] then start
    else
      var front, s := ss[..|ss| - 1], ss[|ss| - 1];
      if s.bytes == 0 then AwakeAt(rate, start, front)
      else s.now + (Run(rate, start, ss).slept - Run(rate, start, front).slept)
  }

  /** Every flush reads the clock after the sleep of the one before. */
  ghost predicate Paced(rate: nat, start: int, ss: seq<Send>)
    requires rate > 0
  {
    ss != [] ==>
      && Paced(rate, start, ss[..|ss| - 1])
      && (ss[|ss| - 1].bytes > 0 ==> AwakeAt(rate, start, ss[..|ss| - 1]) <= ss[|ss| - 1].now)
  }

  /** All sleeps but the last lie inside the elapsed time. */
  lemma {:induction false} SleptInside(rate: nat, start: int, ss: seq<Send>)
    requires rate > 0 && Paced(rate, start, ss)
    ensures var b := Run(rate, start, ss);
            start + b.slept <= AwakeAt(rate, start, ss) <= b.refillAt + MAX_SLEEP
    decreases |ss|
  {
    if ss != [] { SleptInside(rate, start, ss[..|ss| - 1]); }
  }

  /** Hence the double credit at most doubles the rate: without a capped sleep the payload
      is at most 2 x rate x elapsed, plus the last sleep and a nanosecond per flush. */
  lemma AtMostTwiceTheRate(rate: nat, start: int, ss: seq<Send>)
    requires rate > 0 && Uncapped(rate, start, ss) && Paced(rate, start, ss)
    ensures var b := Run(rate, start, ss);
            SECOND * b.sent <= rate * (2 * (b.refillAt - start) + MAX_SLEEP + b.flushes)
  {
    var b := Run(rate, start, ss);
    ThrottleBound(rate, start, ss);
    SleptInside(rate, start, ss);
    Scale(rate, b.refillAt - start + b.slept + b.flushes, 2 * (b.refillAt - start) + MAX_SLEEP + b.flushes);
  }

  /** With the cap the bound is lost: ten bytes at one byte per second sleep only 2 s. */
  lemma CapBreaksBound(start: int)
    ensures var b := Run(1, start, [Send(start, 10)]);
            SECOND * b.sent > 1 * (b.refillAt - start + b.slept + b.flushes)
  {
    var ss := [Send(start, 10)];
    assert ss[..0] == [];
    assert Run(1, start, ss) == Charge(1, Bucket(0, start, 0, 0, 0), Send(start, 10));
  }

  /** k batches of 2000 bytes at 1000 bytes per second, each sent as soon as the sleep of
      the one before is over. */
  function Greedy(start: int, k: nat): (r: seq<Send>)
    ensures |r| == k
  {
    if k == 0 then [] else Greedy(start, k - 1) + [Send(start + SECOND * (k - 1), if k == 1 then 1000 else 2000)]
  }

  /** The factor of two is reached: this sender never hits the cap and sleeps as told, yet
      over k-1 seconds it sends 2000(k-1) + 1000 bytes, so no bound of the form
      rate x elapsed + constant holds. */
  lemma {:induction false} SleepCreditedTwice(start: int, k: nat)
    requires k > 0
    ensures Uncapped(1000, start, Greedy(start, k)) && Paced(1000, start, Greedy(start, k))
    ensures AwakeAt(1000, start, Greedy(start, k)) == start + SECOND * k
    ensures Run(1000, start, Greedy(start, k))
            == Bucket(0, start + SECOND * (k - 1), 2000 * (k - 1) + 1000, SECOND * k, k)
  {
    var ss := Greedy(start, k);
    assert ss[..k - 1] == Greedy(start, k - 1);
    if k == 1 {
      var b := Bucket(0, start, 0, 0, 0);
      assert Run(1000, start, ss[..0]) == b;
      assert Deficit(1000, b, ss[0]) == SECOND;
    } else {
      SleepCreditedTwice(start, k - 1);
      var b := Run(1000, start, ss[..k - 1]);
      assert Refilled(1000, b, ss[k - 1].now) == 1000;
      assert Deficit(1000, b, ss[k - 1]) == SECOND;
    }
  }
}
