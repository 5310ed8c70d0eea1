/** Framing does not depend on how TCP split the bytes, loses nothing, and gives back
    the messages that were sent. */
module FramerProofs {
  import opened Bytes
  import opened Framing
  import opened Framers

  // ----- chunking independence

  lemma IndexStable(hay: seq<byte>, needle: seq<byte>, more: seq<byte>)
    requires Index(hay, needle) != -1
    ensures Index(hay + more, needle) == Index(hay, needle)
  {
    var i := Index(hay, needle);
    forall j | 0 <= j && j + |needle| <= |hay|
      ensures At(hay + more, needle, j) == At(hay, needle, j)
    {
      assert (hay + more)[j..j + |needle|] == hay[j..j + |needle|];
    }
    assert At(hay + more, needle, i);
  }

  lemma WebSocketStable(buf: seq<byte>, more: seq<byte>)
    requires WebSocketStep(buf) != Wait
    ensures WebSocketStep(buf + more) == WebSocketStep(buf)
  {
    if |buf| >= 10 {
      assert (buf + more)[2..10] == buf[2..10];
    }
  }

  lemma TextStable(lengthOf: seq<byte> -> Length, buf: seq<byte>, more: seq<byte>)
    requires TextStepWith(lengthOf, buf) != Wait
    ensures TextStepWith(lengthOf, buf + more) == TextStepWith(lengthOf, buf)
  {
    IndexStable(buf, CRLF2, more);
    var idx := Index(buf, CRLF2);
    assert (buf + more)[..idx] == buf[..idx];
  }

  /** All six framers are stable, so the theorems of module Framing hold for each. */
  lemma FramersStable(g: Strings, p: Protocol)
    ensures Stable(StepOf(g, p)) && StepOf(g, p)([]) == Wait
  {
    forall b: seq<byte>, more: seq<byte> | StepOf(g, p)(b) != Wait
      ensures StepOf(g, p)(b + more) == StepOf(g, p)(b)
    {
      match p
      case SIP => TextStable(LengthBy(g), b, more);
      case HTTP => TextStable(LengthBy(g), b, more);
      case TLS =>
      case Diameter =>
      case AJP =>
      case WebSocket => WebSocketStable(b, more);
    }
  }

  // ----- when a framer fails

  /** The length the front header declares, without any integer bound; 0 when there is no
      complete header to go by. */
  function DeclaredTotal(g: Strings, p: Protocol, buf: seq<byte>): nat {
    match p
    case SIP => TextTotal(LengthBy(g), buf)
    case HTTP => TextTotal(LengthBy(g), buf)
    case TLS => if |buf| < 5 || buf[0] < 20 || buf[0] > 23 then 0 else 5 + U16(buf[3], buf[4])
    case Diameter =>
      if |buf| < 4 || buf[0] != 1 then 0
      else
        var n := buf[1] * 65536 + U16(buf[2], buf[3]);
        if n < 20 then 0 else n
    case AJP =>
      if |buf| < 4 || U16(buf[0], buf[1]) !in {0x1234, 0x4142} then 0 else 4 + U16(buf[2], buf[3])
    case WebSocket => WebSocketTotal(buf)
  }

  function TextTotal(lengthOf: seq<byte> -> Length, buf: seq<byte>): nat {
    var idx := Index(buf, CRLF2);
    if idx == -1 || lengthOf(buf[..idx]).Panics? then 0 else idx + 4 + lengthOf(buf[..idx]).n
  }

  /** The header block is complete and its Content-Length cannot be looked at. */
  predicate HeaderPanics(g: Strings, p: Protocol, buf: seq<byte>) {
    (p == SIP || p == HTTP) && Index(buf, CRLF2) != -1 && HeaderLength(g, buf[..Index(buf, CRLF2)]).Panics?
  }

  function WebSocketTotal(buf: seq<byte>): nat {
    if |buf| < 2 then 0
    else
      var mask := if buf[1] >= 128 then 4 else 0;
      if buf[1] % 128 == 126 then if |buf| < 4 then 0 else 4 + mask + U16(buf[2], buf[3])
      else if buf[1] % 128 == 127 then if |buf| < 10 then 0 else 10 + mask + BigEndian(buf[2..10])
      else 2 + mask + buf[1] % 128
  }

  lemma Int64Small(x: int)
    requires -TWO63 <= x < TWO63
    ensures Int64(x) == x
  {
    Int64Unique(x, x, 0);
  }

  /** With a complete header, the framer goes by the declared total, wrapped to a Go int. */
  lemma StepMeaning(g: Strings, p: Protocol, buf: seq<byte>)
    requires DeclaredTotal(g, p, buf) > 0
    ensures StepOf(g, p)(buf) == Cut(buf, Int64(DeclaredTotal(g, p, buf)))
  {
    match p
    case SIP => TextMeaning(LengthBy(g), buf);
    case HTTP => TextMeaning(LengthBy(g), buf);
    case TLS => Int64Small(DeclaredTotal(g, p, buf));
    case Diameter => Int64Small(DeclaredTotal(g, p, buf));
    case AJP => Int64Small(DeclaredTotal(g, p, buf));
    case WebSocket => WebSocketMeaning(buf);
  }

  lemma TextMeaning(lengthOf: seq<byte> -> Length, buf: seq<byte>)
    requires TextTotal(lengthOf, buf) > 0
    ensures TextStepWith(lengthOf, buf) == Cut(buf, Int64(TextTotal(lengthOf, buf)))
  {
    var idx := Index(buf, CRLF2);
    Int64Add(lengthOf(buf[..idx]).n, idx + 4);
  }

  lemma WebSocketMeaning(buf: seq<byte>)
    requires WebSocketTotal(buf) > 0
    ensures WebSocketStep(buf) == Cut(buf, Int64(WebSocketTotal(buf)))
  {
    var mask := if buf[1] >= 128 then 4 else 0;
    if buf[1] % 128 == 127 {
      Int64Add(BigEndian(buf[2..10]), 10 + mask);
    } else {
      Int64Small(WebSocketTotal(buf));
    }
  }

  /** A `Feed` that looks at `buf` fails at once exactly when the header cannot be looked at,
      or the declared total, as a Go int, is not positive. */
  lemma FaultExactly(g: Strings, p: Protocol, buf: seq<byte>)
    ensures StepOf(g, p)(buf).Fault? <==>
            HeaderPanics(g, p, buf) || (DeclaredTotal(g, p, buf) > 0 && Int64(DeclaredTotal(g, p, buf)) <= 0)
  {
    if DeclaredTotal(g, p, buf) > 0 {
      StepMeaning(g, p, buf);
    }
  }

  // ----- when a framer skips, and when it waits

  /** A first byte with which a TLS record, a Diameter message or an AJP packet can start. */
  predicate MayStart(p: Protocol, b: byte) {
    match p
    case TLS => b == 20 || b == 21 || b == 22 || b == 23
    case Diameter => b == 1
    case AJP => b == 0x12 || b == 0x41
    case _ => true
  }

  /** Enough bytes are there, and they cannot start a message. */
  predicate StartsNothing(p: Protocol, buf: seq<byte>) {
    match p
    case TLS => |buf| >= 5 && !MayStart(p, buf[0])
    case Diameter => |buf| >= 4 && (!MayStart(p, buf[0]) || BigEndian(buf[1..4]) < 20)
    case AJP => |buf| >= 4 && buf[..2] != [0x12, 0x34] && buf[..2] != [0x41, 0x42]
    case _ => false
  }

  /** The whole header is there: up to the blank line, or of the protocol's length. */
  ghost predicate HeaderThere(p: Protocol, buf: seq<byte>) {
    match p
    case TLS => |buf| >= 5
    case Diameter => |buf| >= 4
    case AJP => |buf| >= 4
    case WebSocket => |buf| >= 2 && (buf[1] % 128 == 126 ==> |buf| >= 4) && (buf[1] % 128 == 127 ==> |buf| >= 10)
    case _ => exists i :: 0 <= i && At(buf, [13, 10, 13, 10], i)
  }

  lemma ThreeBytes(buf: seq<byte>)
    requires |buf| >= 4
    ensures BigEndian(buf[1..4]) == buf[1] * 65536 + U16(buf[2], buf[3])
  {
    var b := buf[1..4];
    assert b == [buf[1], buf[2], buf[3]];
    assert b[..2] == [buf[1], buf[2]] && b[..2][..1] == [buf[1]] && [buf[1]][..0] == [];
    assert BigEndian([buf[1]]) == buf[1];
  }

  lemma TwoBytes(hi: byte, lo: byte, hi': byte, lo': byte)
    ensures U16(hi, lo) == U16(hi', lo') <==> [hi, lo] == [hi', lo']
  {
    assert [hi, lo] == [hi', lo'] <==> hi == hi' && lo == lo';
  }

  lemma DiameterSkips(buf: seq<byte>)
    ensures DiameterStep(buf) == Skip <==> StartsNothing(Diameter, buf)
  {
    if |buf| >= 4 { ThreeBytes(buf); }
  }

  lemma AjpSkips(buf: seq<byte>)
    ensures AjpStep(buf) == Skip <==> StartsNothing(AJP, buf)
  {
    if |buf| >= 4 {
      assert buf[..2] == [buf[0], buf[1]];
      TwoBytes(buf[0], buf[1], 0x12, 0x34);
      TwoBytes(buf[0], buf[1], 0x41, 0x42);
    }
  }

  /** A framer skips exactly if the front cannot start a message. */
  lemma SkipExactly(g: Strings, p: Protocol, buf: seq<byte>)
    ensures StepOf(g, p)(buf) == Skip <==> StartsNothing(p, buf)
  {
    match p
    case SIP => TextNeverSkips(LengthBy(g), buf);
    case HTTP => TextNeverSkips(LengthBy(g), buf);
    case TLS => TlsSkips(buf);
    case Diameter => DiameterSkips(buf);
    case AJP => AjpSkips(buf);
    case WebSocket => WebSocketNeverSkips(buf);
  }

  lemma TextNeverSkips(lengthOf: seq<byte> -> Length, buf: seq<byte>)
    ensures TextStepWith(lengthOf, buf) != Skip
  {
  }

  lemma WebSocketNeverSkips(buf: seq<byte>)
    ensures WebSocketStep(buf) != Skip
  {
  }

  lemma TlsSkips(buf: seq<byte>)
    ensures TlsStep(buf) == Skip <==> StartsNothing(TLS, buf)
  {
  }

  /** It waits exactly if the header is not complete, or fewer bytes are there than the
      declared total as a Go int. */
  lemma WaitExactly(g: Strings, p: Protocol, buf: seq<byte>)
    ensures StepOf(g, p)(buf) == Wait <==>
            !HeaderThere(p, buf) || (DeclaredTotal(g, p, buf) > 0 && |buf| < Int64(DeclaredTotal(g, p, buf)))
  {
    if DeclaredTotal(g, p, buf) > 0 {
      StepMeaning(g, p, buf);
    }
    if p == SIP || p == HTTP {
      var idx := Index(buf, CRLF2);
      if idx == -1 {
        assert forall i :: 0 <= i ==> !At(buf, CRLF2, i);
      }
    }
  }

  /** Main resynchronisation theorem: bytes that start no message, before a whole message of
      TLS, Diameter or AJP, are skipped one by one, and the message comes out. */
  lemma StrayBytesSkipped(g: Strings, p: Protocol, stray: seq<byte>, m: seq<byte>, rest: seq<byte>)
    requires p == TLS || p == Diameter || p == AJP
    requires Whole(StepOf(g, p), m) && forall i :: 0 <= i < |stray| ==> !MayStart(p, stray[i])
    ensures
      var r := Frame(StepOf(g, p), rest);
      Frame(StepOf(g, p), stray + m + rest) == r.(blocks := SkippedEach(stray) + [Message(m)] + r.blocks)
  {
    WaitExactly(g, p, m);
    forall i | 0 <= i < |stray|
      ensures StepOf(g, p)((stray + m)[i..]) == Skip
    {
      assert (stray + m)[i..][0] == stray[i];
      SkipExactly(g, p, (stray + m)[i..]);
    }
    FramersStable(g, p);
    Resynchronises(StepOf(g, p), stray, m, rest);
  }

  /** What a framer should do with a declared total: wait for it, then cut it off. */
  function Honoured(total: nat, buf: seq<byte>): Step { if |buf| < total then Wait else Emit(total) }

  /** On a given buffer the declared total is honoured if and only if it fits a Go int, or
      the buffer is still shorter than what it wraps to. Otherwise the framer fails, or
      cuts off the wrapped number of bytes. */
  lemma HonouredExactly(g: Strings, p: Protocol, buf: seq<byte>)
    requires DeclaredTotal(g, p, buf) > 0
    ensures
      var total := DeclaredTotal(g, p, buf);
      && (StepOf(g, p)(buf) == Honoured(total, buf) <==> total < TWO63 || |buf| < Int64(total))
      && (total >= TWO63 && |buf| >= Int64(total) > 0 ==> StepOf(g, p)(buf) == Emit(Int64(total)) && Int64(total) < total)
  {
    StepMeaning(g, p, buf);
    if DeclaredTotal(g, p, buf) < TWO63 { Int64Small(DeclaredTotal(g, p, buf)); }
  }

  lemma FittingLengthIsHonoured(g: Strings, p: Protocol, buf: seq<byte>)
    requires 0 < DeclaredTotal(g, p, buf) < TWO63
    ensures StepOf(g, p)(buf) == Honoured(DeclaredTotal(g, p, buf), buf)
  {
    HonouredExactly(g, p, buf);
  }

  lemma DeclaredTotalStable(g: Strings, p: Protocol, buf: seq<byte>, more: seq<byte>)
    requires DeclaredTotal(g, p, buf) > 0
    ensures DeclaredTotal(g, p, buf + more) == DeclaredTotal(g, p, buf)
  {
    match p
    case SIP => TextTotalStable(LengthBy(g), buf, more);
    case HTTP => TextTotalStable(LengthBy(g), buf, more);
    case TLS =>
    case Diameter =>
    case AJP =>
    case WebSocket => if |buf| >= 10 { assert (buf + more)[2..10] == buf[2..10]; }
  }

  lemma TextTotalStable(lengthOf: seq<byte> -> Length, buf: seq<byte>, more: seq<byte>)
    requires TextTotal(lengthOf, buf) > 0
    ensures TextTotal(lengthOf, buf + more) == TextTotal(lengthOf, buf)
  {
    IndexStable(buf, CRLF2, more);
    var idx := Index(buf, CRLF2);
    assert (buf + more)[..idx] == buf[..idx];
  }

  ghost predicate HonouredWith(g: Strings, p: Protocol, buf: seq<byte>, more: seq<byte>) {
    StepOf(g, p)(buf + more) == Honoured(DeclaredTotal(g, p, buf), buf + more)
  }

  /** Main length theorem: whatever bytes follow, a declared total is waited for and cut
      off exactly, if and only if it fits a Go int. */
  lemma LengthHonouredExactly(g: Strings, p: Protocol, buf: seq<byte>)
    requires DeclaredTotal(g, p, buf) > 0
    ensures (forall more :: HonouredWith(g, p, buf, more)) <==> DeclaredTotal(g, p, buf) < TWO63
  {
    var total := DeclaredTotal(g, p, buf);
    forall more
      ensures HonouredWith(g, p, buf, more) <==> total < TWO63 || |buf + more| < Int64(total)
    {
      DeclaredTotalStable(g, p, buf, more);
      HonouredExactly(g, p, buf + more);
    }
    if total >= TWO63 {
      var more := seq(if Int64(total) > 0 then Int64(total) else 0, _ => 0);
      assert |buf + more| >= Int64(total);
      assert !HonouredWith(g, p, buf, more);
    }
  }

  lemma {:induction false} OnesValue(k: nat)
    ensures BigEndian(seq(k, _ => 255)) == Pow256(k) - 1
  {
    if k > 0 {
      OnesValue(k - 1);
      assert seq(k, _ => 255)[..k - 1] == seq(k - 1, _ => 255);
    }
  }

  /** Without the bound the property is false: this ten-byte WebSocket header declares
      2^64 - 10 payload bytes, and the framer neither waits for them nor moves on. */
  lemma OverlongWebSocketFails(g: Strings, rest: seq<byte>)
    ensures Frame(StepOf(g, WebSocket), [130, 127, 255, 255, 255, 255, 255, 255, 255, 246] + rest).fault
  {
    var h: seq<byte> := [130, 127, 255, 255, 255, 255, 255, 255, 255, 246];
    var buf := h + rest;
    OnesValue(7);
    Pow256Facts();
    assert buf[2..10][..7] == seq(7, _ => 255) && buf[9] == 246;
    assert DeclaredTotal(g, WebSocket, buf) == TWO64;
    Int64Unique(TWO64, 0, 1);
    FaultExactly(g, WebSocket, buf);
  }

  /** Another wraps to a positive length and cuts the stream in the wrong place: a masked
      frame declaring 2^64 - 1 payload bytes is taken to be 13 bytes long. */
  lemma OverlongWebSocketMisframed(g: Strings, rest: seq<byte>)
    requires |rest| >= 3
    ensures StepOf(g, WebSocket)([130, 255] + seq(8, _ => 255) + rest) == Emit(13)
  {
    var buf := [130, 255] + seq(8, _ => 255) + rest;
    OnesValue(8);
    Pow256Facts();
    assert buf[1] == 255 && buf[2..10] == seq(8, _ => 255);
    assert DeclaredTotal(g, WebSocket, buf) == TWO64 + 13;
    Int64Unique(TWO64 + 13, 13, 1);
    HonouredExactly(g, WebSocket, buf);
  }

  // ----- encoders of the wire formats

  function Be16(n: nat): (r: seq<byte>)
    requires n < 65536
    ensures |r| == 2 && U16(r[0], r[1]) == n
  {
    [n / 256, n % 256]
  }

  /** TLS record, section 6.2.1 of RFC 5246. */
  function TlsRecord(contentType: byte, major: byte, minor: byte, fragment: seq<byte>): seq<byte>
    requires 20 <= contentType <= 23 && |fragment| < 65536
  {
    [contentType, major, minor] + Be16(|fragment|) + fragment
  }

  /** Diameter message, section 3 of RFC 6733: the length covers the header. */
  function DiameterMessage(rest: seq<byte>): seq<byte>
    requires 16 <= |rest| < 0x100_0000 - 4
  {
    [1, (|rest| + 4) / 65536] + Be16((|rest| + 4) % 65536) + rest
  }

  function AjpPacket(fromServer: bool, data: seq<byte>): seq<byte>
    requires |data| < 65536
  {
    (if fromServer then [0x12, 0x34] else [0x41, 0x42]) + Be16(|data|) + data
  }

  /** WebSocket frame, section 5.2 of RFC 6455: `key` is empty or the masking key. */
  function WebSocketFrame(first: byte, key: seq<byte>, payload: seq<byte>): seq<byte>
    requires |key| == 0 || |key| == 4
    requires |payload| < TWO63 - 14
  {
    var bit := if |key| == 4 then 128 else 0;
    var n := |payload|;
    (if n < 126 then [first, bit + n]
     else if n < 65536 then [first, bit + 126] + Be16(n)
     else [first, bit + 127] + ToBigEndian(n, 8)) + key + payload
  }

  lemma TlsRecordWhole(g: Strings, contentType: byte, major: byte, minor: byte, fragment: seq<byte>)
    requires 20 <= contentType <= 23 && |fragment| < 65536
    ensures Whole(StepOf(g, TLS), TlsRecord(contentType, major, minor, fragment))
  {
  }

  lemma DiameterMessageWhole(g: Strings, rest: seq<byte>)
    requires 16 <= |rest| < 0x100_0000 - 4
    ensures Whole(StepOf(g, Diameter), DiameterMessage(rest))
  {
    var m, n := DiameterMessage(rest), |rest| + 4;
    assert m[1] * 65536 + U16(m[2], m[3]) == n;
  }

  lemma AjpPacketWhole(g: Strings, fromServer: bool, data: seq<byte>)
    requires |data| < 65536
    ensures Whole(StepOf(g, AJP), AjpPacket(fromServer, data))
  {
  }

  lemma WebSocketFrameWhole(g: Strings, first: byte, key: seq<byte>, payload: seq<byte>)
    requires |key| == 0 || |key| == 4
    requires |payload| < TWO63 - 14
    ensures Whole(StepOf(g, WebSocket), WebSocketFrame(first, key, payload))
  {
    WebSocketFrameTotal(first, key, payload);
    WholeByTotal(g, WebSocket, WebSocketFrame(first, key, payload));
  }

  lemma WebSocketFrameTotal(first: byte, key: seq<byte>, payload: seq<byte>)
    requires |key| == 0 || |key| == 4
    requires |payload| < TWO63 - 14
    ensures var m := WebSocketFrame(first, key, payload); WebSocketTotal(m) == |m| < TWO63
  {
    var m, n := WebSocketFrame(first, key, payload), |payload|;
    var bit := if |key| == 4 then 128 else 0;
    if n < 126 {
      assert m[1] == bit + n;
    } else if n < 65536 {
      MediumHeader(first, |key| == 4, n / 256, n % 256, key + payload);
      assert m == [first, bit + 126, n / 256, n % 256] + (key + payload);
    } else {
      LongHeader(first, bit, n, key + payload);
      assert m == [first, bit + 127] + ToBigEndian(n, 8) + (key + payload);
    }
  }

  lemma MediumHeader(first: byte, masked: bool, hi: byte, lo: byte, rest: seq<byte>)
    ensures WebSocketTotal([first, if masked then 254 else 126, hi, lo] + rest)
            == (if masked then 8 else 4) + U16(hi, lo)
  {
  }

  lemma LongHeader(first: byte, bit: nat, n: nat, rest: seq<byte>)
    requires n < TWO64 && (bit == 0 || bit == 128)
    ensures WebSocketTotal([first, bit + 127] + ToBigEndian(n, 8) + rest) == 10 + bit / 32 + n
  {
    var m := [first, bit + 127] + ToBigEndian(n, 8) + rest;
    Pow256Facts();
    BigEndianRoundTrip(n, 8);
    assert m[1] == bit + 127 && m[2..10] == ToBigEndian(n, 8);
  }

  // ----- SIP and HTTP messages

  /** A needle whose last byte occurs nowhere else in it cannot overlap itself. */
  lemma FirstNeedle(pre: seq<byte>, needle: seq<byte>, post: seq<byte>)
    requires needle != [] && forall k :: 0 <= k < |needle| - 1 ==> needle[k] != needle[|needle| - 1]
    requires Index(pre, needle) == -1
    ensures Index(pre + needle + post, needle) == |pre|
  {
    var l, n := pre + needle + post, |needle|;
    assert l[|pre|..|pre| + n] == needle;
    assert At(l, needle, |pre|);
    forall j | 0 <= j < |pre|
      ensures !At(l, needle, j)
    {
      if j + n <= |pre| {
        assert !At(pre, needle, j);
        assert l[j..j + n] == pre[j..j + n];
      } else {
        assert l[j..j + n][n - 1] == l[j + n - 1] == needle[j + n - 1 - |pre|];
      }
    }
  }

  function BrokenCount(s: seq<byte>): nat {
    if s == [] then 0 else BrokenCount(s[1..]) + if IsBroken(s[0]) then 1 else 0
  }

  lemma {:induction false} WidenedLength(s: seq<byte>)
    ensures |Widened(s)| == |s| + 2 * BrokenCount(s)
  {
    if s != [] { WidenedLength(s[1..]); }
  }

  lemma {:induction false} WidenedAppend(a: seq<byte>, b: seq<byte>)
    ensures Widened(a + b) == Widened(a) + Widened(b)
  {
    if a == [] {
      assert a + b == b;
    } else {
      WidenedAppend(a[1..], b);
      assert (a + b)[1..] == a[1..] + b && (a + b)[0] == a[0];
      var head: seq<byte> := if IsBroken(a[0]) then [0xEF, 0xBF, 0xBD] else [LowerByte(a[0])];
      assert Widened(a + b) == head + (Widened(a[1..]) + Widened(b));
    }
  }

  lemma {:induction false} AsciiNotWidened(s: seq<byte>)
    requires IsAscii(s)
    ensures Widened(s) == Lowered(s) && BrokenCount(s) == 0
  {
    if s != [] { AsciiNotWidened(s[1..]); }
  }

  lemma NameIsAscii(name: seq<byte>)
    requires Lowered(name) == CONTENT_LENGTH
    ensures IsAscii(name) && |name| == 15
  {
    CodesOfName();
    forall i | 0 <= i < |name|
      ensures name[i] < 128
    {
      assert Lowered(name)[i] == LowerByte(name[i]);
    }
  }

  lemma CodesOfName()
    ensures |CONTENT_LENGTH| == 15 && IsAscii(CONTENT_LENGTH)
  {
  }

  /** Where the lower-cased text has the header name: two places further on for every
      broken byte before it. */
  lemma FirstContentLength(g: Strings, pre: seq<byte>, name: seq<byte>, rest: seq<byte>)
    requires FollowsGo(g) && IsPlain(pre) && IsPlain(rest)
    requires Lowered(name) == CONTENT_LENGTH && Index(Widened(pre), CONTENT_LENGTH) == -1
    ensures Index(g.lower(pre + name + rest), CONTENT_LENGTH) == |pre| + 2 * BrokenCount(pre)
  {
    NameIsAscii(name);
    assert IsPlain(pre + name + rest);
    WidenedAppend(pre, name);
    WidenedAppend(pre + name, rest);
    AsciiNotWidened(name);
    WidenedLength(pre);
    NotColon();
    FirstNeedle(Widened(pre), Widened(name), Widened(rest));
  }

  /** So a header block with broken bytes before Content-Length makes the framer panic if
      and only if what follows the name is shorter than twice their number. */
  lemma BrokenHeaderExactly(g: Strings, pre: seq<byte>, name: seq<byte>, rest: seq<byte>)
    requires FollowsGo(g) && IsPlain(pre) && IsPlain(rest)
    requires Lowered(name) == CONTENT_LENGTH && Index(Widened(pre), CONTENT_LENGTH) == -1
    ensures HeaderLength(g, pre + name + rest).Panics? <==> |rest| < 2 * BrokenCount(pre)
  {
    FirstContentLength(g, pre, name, rest);
    NameIsAscii(name);
  }

  lemma TextFails(lengthOf: seq<byte> -> Length, header: seq<byte>, more: seq<byte>)
    requires Terminated(header) && lengthOf(header).Panics?
    ensures TextStepWith(lengthOf, header + CRLF2 + more).Fault?
  {
    IndexStable(header + CRLF2, CRLF2, more);
    assert (header + CRLF2 + more)[..|header|] == header;
  }

  /** One byte 255 before `Content-Length:0` is enough. */
  lemma BrokenHeaderFails(g: Strings, name: seq<byte>, more: seq<byte>)
    requires FollowsGo(g) && Lowered(name) == CONTENT_LENGTH && Terminated([255] + name + [48])
    ensures StepOf(g, SIP)([255] + name + [48] + CRLF2 + more).Fault?
    ensures StepOf(g, HTTP)([255] + name + [48] + CRLF2 + more).Fault?
  {
    assert HeaderLength(g, [255] + name + [48]).Panics? by {
      assert BrokenCount([255]) == 1 + BrokenCount([255][1..]);
      assert Widened([255]) == [0xEF, 0xBF, 0xBD] + Widened([255][1..]);
      CodesOfName();
      BrokenHeaderExactly(g, [255], name, [48]);
    }
    TextFails(LengthBy(g), [255] + name + [48], more);
  }

  lemma NotColon()
    ensures |CONTENT_LENGTH| == 15 && forall k :: 0 <= k < 14 ==> CONTENT_LENGTH[k] != CONTENT_LENGTH[14]
  {
  }

  lemma NoSuchByte(s: seq<byte>, b: byte)
    requires b !in s
    ensures Index(s, [b]) == -1
  {
    forall j | 0 <= j < |s|
      ensures !At(s, [b], j)
    {
      assert s[j..j + 1][0] == s[j];
    }
  }

  lemma FirstByte(s: seq<byte>, b: byte, more: seq<byte>)
    requires b !in s
    ensures Index(s + [b] + more, [b]) == |s|
  {
    var h := s + [b] + more;
    assert h[|s|..|s| + 1] == [b];
    assert At(h, [b], |s|);
    forall j | 0 <= j < |s|
      ensures !At(h, [b], j)
    {
      assert h[j..j + 1][0] == s[j];
    }
  }

  lemma {:induction false} TrimKeepsDigits(sp: seq<byte>, ds: seq<byte>)
    requires (forall i :: 0 <= i < |sp| ==> IsSpace(sp[i])) && (forall i :: 0 <= i < |ds| ==> IsDigit(ds[i]))
    ensures TrimRight(TrimLeft(sp + ds)) == ds
  {
    if sp == [] {
      assert sp + ds == ds;
      if ds != [] {
        assert IsDigit(ds[0]) && IsDigit(ds[|ds| - 1]);
        assert !IsSpace(ds[0]) && !IsSpace(ds[|ds| - 1]);
      }
    } else {
      assert (sp + ds)[1..] == sp[1..] + ds;
      TrimKeepsDigits(sp[1..], ds);
    }
  }

  predicate Terminated(header: seq<byte>) { Index(header + CRLF2, CRLF2) == |header| }

  /** The header block `pre Content-Length: digits post`, in any letter case, with ASCII
      before the name and at most broken bytes besides ASCII after the value. */
  predicate LengthHeader(pre: seq<byte>, name: seq<byte>, sp: seq<byte>, ds: seq<byte>, post: seq<byte>) {
    && Lowered(name) == CONTENT_LENGTH && Index(Lowered(pre), CONTENT_LENGTH) == -1
    && IsAscii(pre) && IsPlain(post) && LengthValue(sp, ds, post)
  }

  predicate LengthValue(sp: seq<byte>, ds: seq<byte>, post: seq<byte>) {
    && (forall i :: 0 <= i < |sp| ==> sp[i] == 32 || sp[i] == 9)
    && (forall i :: 0 <= i < |ds| ==> IsDigit(ds[i]))
    && (post != [] ==> post[0] == 13)
  }

  /** extractContentLength finds the value of the first Content-Length header. */
  lemma DeclaredLengthOf(g: Strings, pre: seq<byte>, name: seq<byte>, sp: seq<byte>, ds: seq<byte>, post: seq<byte>)
    requires FollowsGo(g) && LengthHeader(pre, name, sp, ds, post)
    ensures HeaderLength(g, pre + name + sp + ds + post) == Declared(Digits(ds, 0))
  {
    var rest := sp + ds + post;
    assert pre + name + sp + ds + post == pre + name + rest;
    AsciiNotWidened(pre);
    NameIsAscii(name);
    ValueText(sp, ds, post);
    TrimmedValue(g, sp, ds);
    LengthAfterName(g, pre, name, rest);
  }

  lemma TrimmedValue(g: Strings, sp: seq<byte>, ds: seq<byte>)
    requires FollowsGo(g) && LengthValue(sp, ds, [])
    ensures g.trim(sp + ds) == ds
  {
    assert IsAscii(sp + ds);
    TrimKeepsDigits(sp, ds);
  }

  lemma LengthAfterName(g: Strings, pre: seq<byte>, name: seq<byte>, rest: seq<byte>)
    requires FollowsGo(g) && IsPlain(pre) && BrokenCount(pre) == 0 && IsPlain(rest)
    requires Lowered(name) == CONTENT_LENGTH && Index(Widened(pre), CONTENT_LENGTH) == -1
    ensures HeaderLength(g, pre + name + rest) == Declared(Digits(g.trim(FirstLine(rest)), 0))
  {
    FirstContentLength(g, pre, name, rest);
    NameIsAscii(name);
    CodesOfName();
    assert (pre + name + rest)[|pre| + 15..] == rest;
  }

  /** The value runs up to the carriage return, or to the end of the block. */
  lemma ValueText(sp: seq<byte>, ds: seq<byte>, post: seq<byte>)
    requires LengthValue(sp, ds, post)
    ensures FirstLine(sp + ds + post) == sp + ds
  {
    var rest := sp + ds + post;
    if post == [] {
      assert rest == sp + ds;
      NoSuchByte(rest, 13);
      NoSuchByte(rest, 10);
    } else {
      FirstByte(sp + ds, 13, post[1..]);
      assert rest == (sp + ds) + [13] + post[1..];
      assert rest[..|sp + ds|] == sp + ds;
    }
  }

  /** SIP framing (section 18.3 of RFC 3261) and HTTP: a header block with no early blank
      line whose Content-Length is the body's length is one whole message. */
  lemma TextMessageWhole(
    g: Strings, pre: seq<byte>, name: seq<byte>, sp: seq<byte>, ds: seq<byte>, post: seq<byte>, body: seq<byte>)
    requires FollowsGo(g) && LengthHeader(pre, name, sp, ds, post) && Digits(ds, 0) == |body|
    requires Terminated(pre + name + sp + ds + post)
    requires |pre + name + sp + ds + post| + 4 + |body| < TWO63
    ensures Whole(StepOf(g, SIP), pre + name + sp + ds + post + CRLF2 + body)
    ensures Whole(StepOf(g, HTTP), pre + name + sp + ds + post + CRLF2 + body)
  {
    DeclaredLengthOf(g, pre, name, sp, ds, post);
    HeaderAndBodyWhole(g, pre + name + sp + ds + post, body);
  }

  lemma HeaderTotal(g: Strings, header: seq<byte>, rest: seq<byte>)
    requires Terminated(header) && HeaderLength(g, header).Declared?
    ensures TextTotal(LengthBy(g), header + CRLF2 + rest) == |header| + 4 + HeaderLength(g, header).n
  {
    IndexStable(header + CRLF2, CRLF2, rest);
    assert (header + CRLF2 + rest)[..|header|] == header;
  }

  lemma HeaderAndBodyWhole(g: Strings, header: seq<byte>, body: seq<byte>)
    requires Terminated(header) && HeaderLength(g, header) == Declared(|body|)
    requires |header| + 4 + |body| < TWO63
    ensures Whole(StepOf(g, SIP), header + CRLF2 + body) && Whole(StepOf(g, HTTP), header + CRLF2 + body)
  {
    HeaderTotal(g, header, body);
    WholeByTotal(g, SIP, header + CRLF2 + body);
    WholeByTotal(g, HTTP, header + CRLF2 + body);
  }

  lemma WholeByTotal(g: Strings, p: Protocol, m: seq<byte>)
    requires 0 < DeclaredTotal(g, p, m) == |m| < TWO63
    ensures Whole(StepOf(g, p), m)
  {
    FittingLengthIsHonoured(g, p, m);
  }

  /** A declared length of 2^64 + n is taken for n. */
  lemma WrappedLength(g: Strings, header: seq<byte>, n: nat, rest: seq<byte>)
    requires Terminated(header) && HeaderLength(g, header) == Declared(TWO64 + n)
    requires n <= |rest| && |header| + 4 + n < TWO63
    ensures CutsAfter(g, header, n, rest)
  {
    HeaderTotal(g, header, rest);
    WrappedTotal(g, SIP, header + CRLF2 + rest, |header| + 4 + n);
    WrappedTotal(g, HTTP, header + CRLF2 + rest, |header| + 4 + n);
  }

  lemma WrappedTotal(g: Strings, p: Protocol, buf: seq<byte>, k: nat)
    requires DeclaredTotal(g, p, buf) == TWO64 + k && 0 < k < TWO63 && k <= |buf|
    ensures StepOf(g, p)(buf) == Emit(k)
  {
    Int64Unique(TWO64 + k, k, 1);
    HonouredExactly(g, p, buf);
  }

  /** A number in decimal. */
  function Decimal(n: nat): (r: seq<byte>)
    ensures forall i :: 0 <= i < |r| ==> IsDigit(r[i])
  {
    (if n < 10 then [] else Decimal(n / 10)) + [48 + n % 10]
  }

  lemma {:induction false} DigitsAppend(s: seq<byte>, d: byte, acc: nat)
    requires IsDigit(d) && forall i :: 0 <= i < |s| ==> IsDigit(s[i])
    ensures Digits(s + [d], acc) == Digits(s, acc) * 10 + (d - 48)
    decreases |s|
  {
    if s == [] {
      assert s + [d] == [d];
    } else {
      assert (s + [d])[1..] == s[1..] + [d];
      DigitsAppend(s[1..], d, acc * 10 + (s[0] - 48));
    }
  }

  /** Every number has digits that are read back as it. */
  lemma {:induction false} DecimalRoundTrip(n: nat)
    ensures Digits(Decimal(n), 0) == n
  {
    if n < 10 {
      DigitsAppend([], 48 + n % 10, 0);
    } else {
      DecimalRoundTrip(n / 10);
      DigitsAppend(Decimal(n / 10), 48 + n % 10, 0);
    }
  }

  /** Both text framers cut the message off k bytes after the header. */
  predicate CutsAfter(g: Strings, header: seq<byte>, k: nat, rest: seq<byte>) {
    && StepOf(g, SIP)(header + CRLF2 + rest) == Emit(|header| + 4 + k)
    && StepOf(g, HTTP)(header + CRLF2 + rest) == Emit(|header| + 4 + k)
  }

  /** So a Content-Length of 2^64 + n, in any header block, cuts the message off n bytes
      after its header. */
  lemma OverlongTextMisframed(
    g: Strings, pre: seq<byte>, name: seq<byte>, sp: seq<byte>, ds: seq<byte>, post: seq<byte>, n: nat, header: seq<byte>,
    rest: seq<byte>)
    requires header == pre + name + sp + ds + post
    requires FollowsGo(g) && LengthHeader(pre, name, sp, ds, post) && Digits(ds, 0) == TWO64 + n
    requires Terminated(header) && n <= |rest| && |header| + 4 + n < TWO63
    ensures CutsAfter(g, header, n, rest)
  {
    DeclaredLengthOf(g, pre, name, sp, ds, post);
    WrappedLength(g, header, n, rest);
  }

  /** And with a Content-Length of 2^63 the framer fails: the total is negative and `make`
      panics. */
  lemma OverlongTextFails(
    g: Strings, pre: seq<byte>, name: seq<byte>, sp: seq<byte>, ds: seq<byte>, post: seq<byte>, rest: seq<byte>)
    requires FollowsGo(g) && LengthHeader(pre, name, sp, ds, post) && Digits(ds, 0) == TWO63
    requires Terminated(pre + name + sp + ds + post) && |pre + name + sp + ds + post| + 4 < TWO63
    ensures
      var header := pre + name + sp + ds + post;
      StepOf(g, SIP)(header + CRLF2 + rest).Fault? && StepOf(g, HTTP)(header + CRLF2 + rest).Fault?
  {
    DeclaredLengthOf(g, pre, name, sp, ds, post);
    NegativeLength(g, pre + name + sp + ds + post, rest);
  }

  lemma NegativeLength(g: Strings, header: seq<byte>, rest: seq<byte>)
    requires Terminated(header) && HeaderLength(g, header) == Declared(TWO63) && |header| + 4 < TWO63
    ensures StepOf(g, SIP)(header + CRLF2 + rest).Fault? && StepOf(g, HTTP)(header + CRLF2 + rest).Fault?
  {
    HeaderTotal(g, header, rest);
    NegativeTotal(g, SIP, header + CRLF2 + rest, |header| + 4);
    NegativeTotal(g, HTTP, header + CRLF2 + rest, |header| + 4);
  }

  lemma NegativeTotal(g: Strings, p: Protocol, buf: seq<byte>, k: nat)
    requires DeclaredTotal(g, p, buf) == TWO63 + k && 0 < k < TWO63
    ensures StepOf(g, p)(buf).Fault?
  {
    Int64Unique(TWO63 + k, k - TWO63, 1);
    FaultExactly(g, p, buf);
  }
}
