/** The six streaming message framers. Each framer looks at the front of its buffer and
    waits for more bytes, skips one byte to resynchronise, or cuts off a message; `Feed`
    repeats that until it has to wait (module Framing).

    Lengths are Go ints: a declared length that does not fit wraps, and a total of zero
    or less makes `Feed` fail (a negative `make` panics, a zero-length cut never ends), as
    does a header in which Content-Length is looked for beyond the end. That outcome is
    `Fault`. */
module Framers {
  import opened Bytes
  import opened Framing

  datatype Protocol = SIP | HTTP | TLS | Diameter | AJP | WebSocket

  // ----- text helpers

  const CRLF2: seq<byte> := [13, 10, 13, 10]
  const CONTENT_LENGTH: seq<byte> := [99, 111, 110, 116, 101, 110, 116, 45, 108, 101, 110, 103, 116, 104, 58]

  predicate At(hay: seq<byte>, needle: seq<byte>, i: int) {
    0 <= i && i + |needle| <= |hay| && hay[i..i + |needle|] == needle
  }

  lemma AtTail(hay: seq<byte>, needle: seq<byte>)
    requires hay != []
    ensures forall j :: 1 <= j ==> At(hay, needle, j) == At(hay[1..], needle, j - 1)
  {
    forall j | 1 <= j
      ensures At(hay, needle, j) == At(hay[1..], needle, j - 1)
    {
      if j + |needle| <= |hay| {
        assert hay[1..][j - 1..j - 1 + |needle|] == hay[j..j + |needle|];
      }
    }
  }

  /** strings.Index: the first position of `needle`, or -1. */
  function Index(hay: seq<byte>, needle: seq<byte>): (r: int)
    ensures -1 <= r
    ensures r >= 0 ==> At(hay, needle, r)
    ensures forall j :: 0 <= j < (if r == -1 then |hay| + 1 else r) ==> !At(hay, needle, j)
    decreases |hay|
  {
    if |hay| < |needle| then -1
    else if At(hay, needle, 0) then 0
    else if hay == [] then -1
    else
      var r := Index(hay[1..], needle);
      AtTail(hay, needle);
      if r == -1 then -1 else r + 1
  }

  /** strings.ToLower on ASCII bytes. */
  function Lowered(s: seq<byte>): (r: seq<byte>)
    ensures |r| == |s|
    ensures forall i :: 0 <= i < |s| ==> r[i] == LowerByte(s[i])
  {
    if s == [] then [] else [LowerByte(s[0])] + Lowered(s[1..])
  }

  function LowerByte(b: byte): byte { if 65 <= b <= 90 then b + 32 else b }

  predicate IsSpace(b: byte) { b == 32 || 9 <= b <= 13 }

  predicate IsDigit(b: byte) { 48 <= b <= 57 }

  function TrimLeft(s: seq<byte>): seq<byte> {
    if s != [] && IsSpace(s[0]) then TrimLeft(s[1..]) else s
  }

  function TrimRight(s: seq<byte>): seq<byte> {
    if s != [] && IsSpace(s[|s| - 1]) then TrimRight(s[..|s| - 1]) else s
  }

  /** The decimal number at the front of `s`, continuing from `acc`, without bound. */
  function Digits(s: seq<byte>, acc: nat): nat {
    if s != [] && IsDigit(s[0]) then Digits(s[1..], acc * 10 + (s[0] - 48)) else acc
  }

  // ----- Go's Unicode strings

  /** strings.ToLower and strings.TrimSpace. Their Unicode tables are not modelled: what is
      used of them is in FollowsGo. */
  datatype Strings = Strings(lower: seq<byte> -> seq<byte>, trim: seq<byte> -> seq<byte>)

  predicate IsAscii(s: seq<byte>) { forall i :: 0 <= i < |s| ==> s[i] < 128 }

  /** A byte that never occurs in UTF-8 (section 3 of RFC 3629). */
  predicate IsBroken(b: byte) { b == 0xC0 || b == 0xC1 || b >= 0xF5 }

  /** Text of ASCII and broken bytes. */
  predicate IsPlain(s: seq<byte>) { forall i :: 0 <= i < |s| ==> s[i] < 128 || IsBroken(s[i]) }

  /** Lower-casing such text puts the three-byte replacement character for each broken byte. */
  function Widened(s: seq<byte>): seq<byte> {
    if s == [] then []
    else (if IsBroken(s[0]) then [0xEF, 0xBF, 0xBD] else [LowerByte(s[0])]) + Widened(s[1..])
  }

  ghost predicate FollowsGo(g: Strings) {
    && (forall s :: IsPlain(s) ==> g.lower(s) == Widened(s))
    && (forall s :: IsAscii(s) ==> g.trim(s) == TrimRight(TrimLeft(s)))
  }

  // ----- Content-Length

  /** What extractContentLength finds: a number, 0 without the header; or it panics, when
      the position found in the lower-cased text lies beyond the end of the text itself. */
  datatype Length = Declared(n: nat) | Panics

  function HeaderLength(g: Strings, headers: seq<byte>): Length {
    var idx := Index(g.lower(headers), CONTENT_LENGTH);
    if idx == -1 then Declared(0)
    else if idx + |CONTENT_LENGTH| > |headers| then Panics
    else Declared(Digits(g.trim(FirstLine(headers[idx + |CONTENT_LENGTH|..])), 0))
  }

  /** Up to the first carriage return, else the first line feed, else all. */
  function FirstLine(rest: seq<byte>): seq<byte> {
    var cr, lf := Index(rest, [13]), Index(rest, [10]);
    if cr != -1 then rest[..cr] else if lf != -1 then rest[..lf] else rest
  }

  lemma DigitsStep(s: seq<byte>, i: nat, acc: nat)
    requires i < |s| && IsDigit(s[i])
    ensures Digits(s[i..], acc) == Digits(s[i + 1..], acc * 10 + (s[i] - 48))
  {
    assert s[i..][0] == s[i] && s[i..][1..] == s[i + 1..];
  }

  /** `n*10 + d` in 64 bits, where n is the wrapped form of acc. */
  method AddDigit(n: int, d: nat, ghost acc: nat) returns (r: int)
    requires n == Int64(acc)
    ensures r == Int64(acc * 10 + d)
  {
    Int64Scale(acc, d);
    r := Int64(n * 10 + d);
  }

  /** extractContentLength: the 64-bit accumulator is the declared length, wrapped. */
  method ExtractContentLength(g: Strings, headers: seq<byte>) returns (n: int, panics: bool)
    ensures panics == HeaderLength(g, headers).Panics?
    ensures !panics ==> n == Int64(HeaderLength(g, headers).n)
  {
    n, panics := 0, false;
    var idx := Index(g.lower(headers), CONTENT_LENGTH);
    if idx == -1 {
      return;
    }
    if idx + |CONTENT_LENGTH| > |headers| {
      panics := true;
      return;
    }
    n := ParseDigits(g.trim(FirstLine(headers[idx + |CONTENT_LENGTH|..])));
  }

  /** The digit loop. */
  method ParseDigits(val: seq<byte>) returns (n: int)
    ensures n == Int64(Digits(val, 0))
  {
    n := 0;
    var i := 0;
    ghost var acc: nat := 0;
    while i < |val| && IsDigit(val[i])
      invariant 0 <= i <= |val|
      invariant n == Int64(acc)
      invariant Digits(val[i..], acc) == Digits(val, 0)
    {
      var d := val[i] - 48;
      DigitsStep(val, i, acc);
      n := AddDigit(n, d, acc);
      acc := acc * 10 + d;
      i := i + 1;
    }
    assert i < |val| ==> val[i..][0] == val[i];
  }

  // ----- one step of each framer

  function Cut(buf: seq<byte>, total: int): (r: Step)
    ensures Legal(buf, r)
  {
    if |buf| < total then Wait else if total <= 0 then Fault else Emit(total)
  }

  /** SIP and HTTP, given the length a header block declares. */
  function TextStepWith(lengthOf: seq<byte> -> Length, buf: seq<byte>): (r: Step)
    ensures Legal(buf, r)
  {
    var idx := Index(buf, CRLF2);
    if idx == -1 then Wait
    else match lengthOf(buf[..idx])
      case Panics => Fault
      case Declared(n) => Cut(buf, Int64(idx + 4 + Int64(n)))
  }

  function LengthBy(g: Strings): seq<byte> -> Length { (headers: seq<byte>) => HeaderLength(g, headers) }

  function TextStepper(g: Strings): Stepper { (buf: seq<byte>) => TextStepWith(LengthBy(g), buf) }

  function TlsStep(buf: seq<byte>): (r: Step)
    ensures Legal(buf, r)
  {
    if |buf| < 5 then Wait
    else if buf[0] < 20 || buf[0] > 23 then Skip
    else Cut(buf, 5 + U16(buf[3], buf[4]))
  }

  function DiameterStep(buf: seq<byte>): (r: Step)
    ensures Legal(buf, r)
  {
    if |buf| < 4 then Wait
    else if buf[0] != 1 then Skip
    else
      var n := buf[1] * 65536 + U16(buf[2], buf[3]);
      if n < 20 then Skip else Cut(buf, n)
  }

  function AjpStep(buf: seq<byte>): (r: Step)
    ensures Legal(buf, r)
  {
    if |buf| < 4 then Wait
    else if U16(buf[0], buf[1]) != 0x1234 && U16(buf[0], buf[1]) != 0x4142 then Skip
    else Cut(buf, 4 + U16(buf[2], buf[3]))
  }

  function WebSocketStep(buf: seq<byte>): (r: Step)
    ensures Legal(buf, r)
  {
    if |buf| < 2 then Wait
    else
      var mask := if buf[1] >= 128 then 4 else 0;
      var len7 := buf[1] % 128;
      if len7 == 126 then
        if |buf| < 4 then Wait else Cut(buf, 4 + mask + U16(buf[2], buf[3]))
      else if len7 == 127 then
        if |buf| < 10 then Wait else Cut(buf, Int64(10 + mask + Int64(BigEndian(buf[2..10]))))
      else Cut(buf, 2 + mask + len7)
  }

  function U16(hi: byte, lo: byte): nat { hi * 256 + lo }

  function WebSocketStepper(): Stepper { WebSocketStep }

  /** The step function of each framer. */
  function StepOf(g: Strings, p: Protocol): Stepper {
    match p
    case SIP => TextStepper(g)
    case HTTP => TextStepper(g)
    case TLS => TlsStep
    case Diameter => DiameterStep
    case AJP => AjpStep
    case WebSocket => WebSocketStepper()
  }

  // ----- the framer object

  class Framer {
    const strings: Strings
    const proto: Protocol
    var buf: seq<byte>

    constructor (strings: Strings, proto: Protocol)
      ensures this.strings == strings && this.proto == proto && buf == []
    {
      this.strings, this.proto := strings, proto;
      buf := [];
    }

    /** Appends `data` and cuts off every complete message. `ok` is false when the call
        would panic or loop for ever. */
    method Feed(data: seq<byte>) returns (msgs: seq<seq<byte>>, ok: bool)
      modifies this
      ensures
        var r := Frame(StepOf(strings, proto), old(buf) + data);
        msgs == Messages(r.blocks) && buf == r.rest && ok == !r.fault
    {
      var f := StepOf(strings, proto);
      buf := buf + data;
      msgs := [];
      ok := true;
      ghost var whole := Frame(f, buf);
      ghost var done: seq<Block> := [];
      ResumeStart(f, buf);
      while true
        invariant ok && msgs == Messages(done)
        invariant whole == Resume(f, done, buf)
        decreases |buf|
      {
        var step := f(buf);
        ResumeStep(f, done, buf);
        match step {
          case Wait =>
            return;
          case Fault =>
            ok := false;
            return;
          case Skip =>
            done := done + [Skipped(buf[..1])];
            buf := buf[1..];
          case Emit(k) =>
            done := done + [Message(buf[..k])];
            msgs := msgs + [buf[..k]];
            buf := buf[k..];
        }
      }
    }

    /** Hands out the partial message and empties the buffer. */
    method Flush() returns (remaining: seq<byte>)
      modifies this
      ensures remaining == old(buf) && buf == []
    {
      remaining := buf;
      buf := [];
    }
  }
}
