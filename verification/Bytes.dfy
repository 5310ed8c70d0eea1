/** Octets, fixed-width integers, and small helpers shared by several modules. */
module Bytes {
  type byte = x: int | 0 <= x < 256

  const TWO31 := 0x8000_0000
  const TWO32 := 0x1_0000_0000
  const TWO63 := 0x8000_0000_0000_0000
  const TWO64 := 0x1_0000_0000_0000_0000

  /** Nanoseconds in a second. */
  const SECOND := 1_000_000_000

  datatype Option<+T> = None | Some(value: T)

  lemma ModUnique(x: nat, m: nat, q: nat, r: nat)
    requires r < m && x == m * q + r
    ensures x % m == r
  {
    var q', r' := x / m, x % m;
    assert x == m * q' + r';
    assert q' > q ==> m * q' >= m * (q + 1) == m * q + m;
    assert q' < q ==> m * q >= m * (q' + 1) == m * q' + m;
  }

  // ----- 32 and 64 bits

  lemma Mod32Unique(x: int, r: int, q: int)
    requires 0 <= r < TWO32 && x == TWO32 * q + r
    ensures x % TWO32 == r
  {
  }

  lemma Mod32Add(a: int, b: int)
    ensures (a % TWO32 + b) % TWO32 == (a + b) % TWO32
    ensures (a % TWO32 - b % TWO32) % TWO32 == (a - b) % TWO32
  {
    var x := a % TWO32 + b;
    Mod32Unique(a + b, x % TWO32, x / TWO32 + a / TWO32);
    var y := a % TWO32 - b % TWO32;
    Mod32Unique(a - b, y % TWO32, y / TWO32 + a / TWO32 - b / TWO32);
  }

  /** A value stored in Go's 64-bit int. */
  function Int64(x: int): (r: int)
    ensures -TWO63 <= r < TWO63
  {
    (x + TWO63) % TWO64 - TWO63
  }

  lemma Int64Unique(x: int, r: int, q: int)
    requires -TWO63 <= r < TWO63 && x == r + TWO64 * q
    ensures Int64(x) == r
  {
  }

  /** Wrapping is a congruence for the parser's `n*10 + digit`. */
  lemma Int64Scale(a: int, d: int)
    ensures Int64(Int64(a) * 10 + d) == Int64(a * 10 + d)
  {
    var q := (a + TWO63) / TWO64;
    assert a == Int64(a) + TWO64 * q;
    var x := Int64(a) * 10 + d;
    var p := (x + TWO63) / TWO64;
    assert x == Int64(x) + TWO64 * p;
    Int64Unique(a * 10 + d, Int64(x), p + 10 * q);
  }

  lemma Int64Add(a: int, d: int)
    ensures Int64(d + Int64(a)) == Int64(d + a)
  {
    var q := (a + TWO63) / TWO64;
    assert a == Int64(a) + TWO64 * q;
    var x := d + Int64(a);
    var p := (x + TWO63) / TWO64;
    assert x == Int64(x) + TWO64 * p;
    Int64Unique(d + a, Int64(x), p + q);
  }

  /** The big-endian value of a byte string. */
  function BigEndian(b: seq<byte>): nat {
    if b == [] then 0 else BigEndian(b[..|b| - 1]) * 256 + b[|b| - 1]
  }

  function Pow256(w: nat): nat { if w == 0 then 1 else 256 * Pow256(w - 1) }

  /** `n` as `w` big-endian bytes, keeping its low `8 * w` bits. */
  function ToBigEndian(n: nat, w: nat): (r: seq<byte>)
    ensures |r| == w
  {
    if w == 0 then [] else ToBigEndian(n / 256, w - 1) + [n % 256]
  }

  lemma {:induction false} BigEndianRoundTrip(n: nat, w: nat)
    requires n < Pow256(w)
    ensures BigEndian(ToBigEndian(n, w)) == n
  {
    if w > 0 {
      BigEndianRoundTrip(n / 256, w - 1);
      assert ToBigEndian(n, w)[..w - 1] == ToBigEndian(n / 256, w - 1);
    }
  }

  lemma Pow256Facts()
    ensures Pow256(2) == 65536 && Pow256(4) == TWO32 && Pow256(8) == TWO64
  {
    assert Pow256(4) == 256 * Pow256(3) == 256 * (256 * Pow256(2));
    assert Pow256(8) == 256 * Pow256(7) == 256 * (256 * Pow256(6));
    assert Pow256(6) == 256 * Pow256(5) == 256 * (256 * Pow256(4));
  }

  function Concat<T>(parts: seq<seq<T>>): seq<T> {
    if parts == [] then [] else parts[0] + Concat(parts[1..])
  }

  lemma {:induction false} ConcatAppend<T>(a: seq<seq<T>>, b: seq<seq<T>>)
    ensures Concat(a + b) == Concat(a) + Concat(b)
  {
    if a == [] {
      assert a + b == b;
    } else {
      ConcatAppend(a[1..], b);
      assert (a + b)[1..] == a[1..] + b && (a + b)[0] == a[0];
      assert Concat(a + b) == a[0] + (Concat(a[1..]) + Concat(b));
    }
  }

  lemma ConcatSingle<T>(x: seq<T>)
    ensures Concat([x]) == x
  {
    assert [x][1..] == [];
    assert Concat([x]) == x + [];
  }
}
