/** Length-prefixed frames over a TCP connection: four big-endian length bytes, then the
    payload. The connection delivers its bytes in arbitrary chunks. */
module Wire {
  import opened Bytes

  const MAX_MSG := 8388608

  /** writeMsg: the length is cut to uint32, and nothing checks it. */
  function Encode(payload: seq<byte>): (r: seq<byte>)
    ensures |r| == 4 + |payload|
  {
    ToBigEndian(|payload|, 4) + payload
  }

  datatype ReadError = Eof | UnexpectedEof | EmptyMessage | TooLarge

  datatype ReadResult = Got(payload: seq<byte>, rest: seq<byte>) | Failed(error: ReadError)

  /** io.ReadFull on the bytes left before the connection ends. */
  function ShortRead(available: nat): ReadError { if available == 0 then Eof else UnexpectedEof }

  /** readMsg on all the bytes the connection will ever deliver. */
  function ReadFrame(stream: seq<byte>): ReadResult {
    if |stream| < 4 then Failed(ShortRead(|stream|))
    else
      var n := BigEndian(stream[..4]);
      if n == 0 then Failed(EmptyMessage)
      else if n > MAX_MSG then Failed(TooLarge)
      else if |stream| - 4 < n then Failed(ShortRead(|stream| - 4))
      else Got(stream[4..4 + n], stream[4 + n..])
  }

  /** One end of a connection: the chunks its reads will return. */
  class Conn {
    var chunks: seq<seq<byte>>

    constructor (chunks: seq<seq<byte>>)
      ensures this.chunks == chunks
    {
      this.chunks := chunks;
    }

    ghost function Stream(): seq<byte>
      reads this
    {
      Concat(chunks)
    }

    /** io.ReadFull: reads until it has n bytes or the connection ends. */
    method ReadFull(n: nat) returns (data: seq<byte>)
      modifies this
      ensures |data| == if n <= |old(Stream())| then n else |old(Stream())|
      ensures data + Stream() == old(Stream())
    {
      data := [];
      while |data| < n && chunks != []
        invariant |data| <= n
        invariant data + Stream() == old(Stream())
        decreases |chunks|, n - |data|
      {
        var head := chunks[0];
        assert Stream() == head + Concat(chunks[1..]);
        if |head| <= n - |data| {
          data := data + head;
          chunks := chunks[1..];
        } else {
          var k := n - |data|;
          data := data + head[..k];
          chunks := [head[k..]] + chunks[1..];
          assert head == head[..k] + head[k..];
        }
      }
    }

    /** readMsg / readMsgZlib up to the decoder: depends only on the byte stream, never on
        how it was cut into chunks. */
    method ReadMsg() returns (r: ReadResult)
      modifies this
      ensures r == ReadFrame(old(Stream()))
      ensures r.Got? ==> Stream() == r.rest
    {
      ghost var s := Stream();
      var hdr := ReadFull(4);
      if |hdr| < 4 {
        return Failed(ShortRead(|hdr|));
      }
      assert s[..4] == hdr && s[4..] == Stream();
      var n := BigEndian(hdr);
      if n == 0 {
        return Failed(EmptyMessage);
      }
      if n > MAX_MSG {
        return Failed(TooLarge);
      }
      var buf := ReadFull(n);
      if |buf| < n {
        return Failed(ShortRead(|buf|));
      }
      ghost var after := Stream();
      assert s[4..4 + n] == buf && s[4 + n..] == after;
      var left := Concat(chunks);
      return Got(buf, left);
    }
  }

  // ----- the length field

  /** `w` bytes hold a number modulo 256^w. */
  lemma {:induction false} BigEndianTruncates(n: nat, w: nat)
    ensures Pow256(w) > 0 && BigEndian(ToBigEndian(n, w)) == n % Pow256(w)
  {
    if w > 0 {
      BigEndianTruncates(n / 256, w - 1);
      assert ToBigEndian(n, w)[..w - 1] == ToBigEndian(n / 256, w - 1);
      ModScale(n, Pow256(w - 1));
    }
  }

  lemma ModScale(n: nat, p: nat)
    requires p > 0
    ensures n / 256 % p * 256 + n % 256 == n % (256 * p)
  {
    var q, r := n / 256, n % 256;
    var a, b := q / p, q % p;
    calc {
      n;
      256 * q + r;
      256 * (p * a + b) + r;
      (256 * p) * a + (256 * b + r);
    }
    ModUnique(n, 256 * p, a, 256 * b + r);
  }

  lemma LengthField(n: nat)
    ensures BigEndian(ToBigEndian(n, 4)) == n % TWO32
  {
    BigEndianTruncates(n, 4);
    Pow256Facts();
  }

  /** Main framing theorem: a written frame is read back as its payload, leaving what
      follows it, if and only if the payload has 1 byte to 8 MiB. */
  lemma FrameRoundTrip(payload: seq<byte>, rest: seq<byte>)
    ensures ReadFrame(Encode(payload) + rest) == Got(payload, rest) <==> 1 <= |payload| <= 8 * 1024 * 1024
  {
    var s := Encode(payload) + rest;
    var n := |payload| % TWO32;
    LengthField(|payload|);
    assert s[..4] == ToBigEndian(|payload|, 4);
    assert s[4..] == payload + rest;
    if 1 <= |payload| <= MAX_MSG {
      assert s[4..4 + n] == payload && s[4 + n..] == rest;
    }
  }

  /** A length of 0 or of more than 8 MiB is refused, whatever follows. */
  lemma BadLengthRefused(n: nat, rest: seq<byte>)
    requires n < TWO32
    ensures n == 0 ==> ReadFrame(ToBigEndian(n, 4) + rest) == Failed(EmptyMessage)
    ensures n > 8 * 1024 * 1024 ==> ReadFrame(ToBigEndian(n, 4) + rest) == Failed(TooLarge)
  {
    LengthField(n);
    assert (ToBigEndian(n, 4) + rest)[..4] == ToBigEndian(n, 4);
  }

  /** A frame that is cut short is not taken for a message. */
  lemma CutFrameFails(payload: seq<byte>, m: nat)
    requires 1 <= |payload| <= MAX_MSG && m < |Encode(payload)|
    ensures ReadFrame(Encode(payload)[..m]) ==
            Failed(if m == 0 || m == 4 then Eof else UnexpectedEof)
  {
    LengthField(|payload|);
    if m >= 4 {
      assert Encode(payload)[..m][..4] == ToBigEndian(|payload|, 4);
    }
  }
}
