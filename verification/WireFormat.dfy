/** The frames of every message type, byte for byte, and what a reader does with the first
    bytes of any input: in arithmetic on bytes alone. */
module WireFormat {
  import opened Wire
  import opened CodecSpec

  // ---- Numbers as bytes ----

  function Two(n: nat): seq<byte> { [(n % 256) as byte, (n / 256 % 256) as byte] }

  function Four(n: nat): seq<byte> {
    [(n % 256) as byte, (n / 256 % 256) as byte, (n / 65536 % 256) as byte, (n / 16777216 % 256) as byte]
  }

  function Eight(n: nat): seq<byte> { Four(n % 4294967296) + Four(n / 4294967296) }

  function Flag(b: bool): byte { if b then 1 else 0 }

  /** The unsigned value of a two's-complement number. */
  function Unsigned(n: int, modulus: nat): nat
    requires modulus > 0 && -(modulus as int) <= n < modulus
  {
    if n < 0 then n + modulus else n
  }

  lemma {:induction false} BytesOf(v: nat, k: nat)
    requires k > 0
    ensures LE(v, k) == [(v % 256) as byte] + LE(v / 256, k - 1)
  {
  }

  lemma TwoIsLE(n: nat)
    ensures Bytes2(n) == Two(n)
  {
    BytesOf(n, 2);
    BytesOf(n / 256, 1);
  }

  lemma FourIsLE(n: nat)
    ensures Bytes4(n) == Four(n)
  {
    BytesOf(n, 4);
    BytesOf(n / 256, 3);
    BytesOf(n / 256 / 256, 2);
    BytesOf(n / 256 / 256 / 256, 1);
    assert n / 256 / 256 == n / 65536 && n / 256 / 256 / 256 == n / 16777216;
  }

  lemma {:induction false} LESplits(v: nat, k: nat)
    ensures LE(v, 4 + k) == Bytes4(v) + LE(v / 4294967296, k)
  {
    BytesOf(v, 4 + k);
    BytesOf(v / 256, 3 + k);
    BytesOf(v / 256 / 256, 2 + k);
    BytesOf(v / 256 / 256 / 256, 1 + k);
    FourIsLE(v);
    assert v / 256 / 256 == v / 65536 && v / 256 / 256 / 256 == v / 16777216;
    assert v / 256 / 256 / 256 / 256 == v / 4294967296;
  }

  lemma DivideOut(m: nat, d: nat, t: nat)
    requires d > 0
    ensures (m + d * t) / d == m / d + t
  {
    var q, r := m / d, m % d;
    assert m + d * t == d * (q + t) + r;
    DivisionIs(m + d * t, d, q + t, r);
  }

  lemma DivisionIs(n: nat, d: nat, q: nat, r: nat)
    requires n == d * q + r && r < d
    ensures n / d == q
  {
    var e: int, w: int, x: int, y: int := n / d, q, r, n % d;
    ZeroMultiple(d, e - w, x - y);
  }

  lemma ZeroMultiple(d: int, k: int, r: int)
    requires -d < r < d && d * k == r
    ensures k == 0
  {
    assert k > 0 ==> d * k >= d;
    assert k < 0 ==> d * k <= -d;
  }

  /** A digit of four does not see multiples of 2^32. */
  lemma DigitStays(m: nat, t: nat, d: nat, k: nat)
    requires d > 0 && d * (256 * k) == 4294967296
    ensures (m + 4294967296 * t) / d % 256 == m / d % 256
  {
    assert 4294967296 * t == d * (256 * k * t) by { assert (d * (256 * k)) * t == d * (256 * k * t); }
    DivideOut(m, d, 256 * k * t);
    assert 256 * k * t == 256 * (k * t);
    ModStays(m / d, k * t);
  }

  lemma ModStays(a: nat, t: nat)
    ensures (a + 256 * t) % 256 == a % 256
  {
  }

  lemma FourIgnoresTheRest(n: nat)
    ensures Four(n % 4294967296) == Four(n)
  {
    var m, t := n % 4294967296, n / 4294967296;
    DigitStays(m, t, 1, 16777216);
    DigitStays(m, t, 256, 65536);
    DigitStays(m, t, 65536, 256);
    DigitStays(m, t, 16777216, 1);
    assert n == m + 4294967296 * t;
  }

  lemma EightIsLE(n: nat)
    ensures Bytes8(n) == Eight(n)
  {
    LESplits(n, 4);
    FourIsLE(n);
    FourIsLE(n / 4294967296);
    FourIgnoresTheRest(n);
    assert LE(n / 4294967296, 4) == Bytes4(n / 4294967296);
  }

  // ---- Frames ----

  /** Length, type, body. */
  function Framed(tag: byte, body: seq<byte>): seq<byte> { Four(1 + |body|) + [tag] + body }

  /** A string: its length, then its bytes. */
  function Text(s: seq<byte>): seq<byte> { Two(|s|) + s }

  function Display(m: Monitor): seq<byte> {
    [m.id] + Four(Unsigned(m.x as int, 4294967296)) + Four(Unsigned(m.y as int, 4294967296))
      + Four(m.w as int) + Four(m.h as int) + [Flag(m.primary)] + Text(m.name)
  }

  function Displays(ms: seq<Monitor>): seq<byte> {
    if ms == [] then [] else Display(ms[0]) + Displays(ms[1..])
  }

  /** The frame of a message within the format's limits. */
  function FrameOf(m: Message): seq<byte> {
    match m
    case Hello(v, name, ms, token) =>
      Framed(1, Two(v as int) + Text(name) + ([(|ms| % 256) as byte] + Displays(ms)) + Text(token))
    case Welcome(name) => Framed(2, Text(name))
    case MouseMove(dx, dy) => Framed(3, Two(Unsigned(dx as int, 65536)) + Two(Unsigned(dy as int, 65536)))
    case MouseAbs(id, x, y) => Framed(4, [id] + Two(x as int) + Two(y as int))
    case MouseButton(b, down) => Framed(5, [b] + [Flag(down)])
    case MouseWheel(dx, dy) => Framed(6, Two(Unsigned(dx as int, 65536)) + Two(Unsigned(dy as int, 65536)))
    case KeyEvent(k, down) => Framed(7, Two(k as int) + [Flag(down)])
    case Ping(n) => Framed(8, Four(n as int))
    case Pong(n) => Framed(9, Four(n as int))
    case Grab(on) => Framed(10, [Flag(on)])
    case Bye(reason) => Framed(11, Text(reason))
    case MonitorsChanged(ms) => Framed(12, [(|ms| % 256) as byte] + Displays(ms))
    case ClipboardUpdate(origin, n, format, data) =>
      Framed(13, Text(origin) + Eight(n as int) + [format] + (Four(|data|) + data))
  }

  /** Within the format's limits: strings of at most 65535 bytes, at most 16 monitors. */
  predicate Small(m: Message) {
    match m
    case Hello(_, name, ms, token) => |name| <= 65535 && |token| <= 65535 && FewDisplays(ms)
    case Welcome(name) => |name| <= 65535
    case Bye(reason) => |reason| <= 65535
    case MonitorsChanged(ms) => FewDisplays(ms)
    case ClipboardUpdate(origin, _, _, _) => |origin| <= 65535
    case _ => true
  }

  predicate FewDisplays(ms: seq<Monitor>) {
    |ms| <= 16 && forall i :: 0 <= i < |ms| ==> |ms[i].name| <= 65535
  }

  lemma TextIs(s: seq<byte>)
    requires |s| <= 65535
    ensures StrBytes(s) == Text(s)
  {
    TwoIsLE(|s|);
  }

  lemma DisplayIs(m: Monitor)
    requires |m.name| <= 65535
    ensures MonitorBytes(m) == Display(m)
  {
    FourIsLE(U32(m.x) as int);
    FourIsLE(U32(m.y) as int);
    FourIsLE(m.w as int);
    FourIsLE(m.h as int);
    TextIs(m.name);
  }

  lemma {:induction false} DisplaysAre(ms: seq<Monitor>)
    requires forall i :: 0 <= i < |ms| ==> |ms[i].name| <= 65535
    ensures ManyMonitorBytes(ms) == Displays(ms)
  {
    if ms != [] {
      DisplayIs(ms[0]);
      DisplaysAre(ms[1..]);
    }
  }

  lemma DisplayListIs(ms: seq<Monitor>)
    requires FewDisplays(ms)
    ensures MonitorListBytes(ms) == [(|ms| % 256) as byte] + Displays(ms)
  {
    DisplaysAre(ms);
    assert Cut(ms, MAX_MONITORS) == ms;
    CountIs(|ms|);
  }

  lemma CountIs(n: nat)
    requires n <= 16
    ensures n as byte == (n % 256) as byte
  {
  }

  lemma FramedIs(m: Message, tag: byte, body: seq<byte>)
    requires Tag(m) == tag && Body(m) == body
    ensures Frame(m) == Framed(tag, body)
  {
    FourIsLE(1 + |body|);
    assert Frame(m) == Bytes4(1 + |body|) + ([tag] + body);
  }

  lemma DataIs(data: seq<byte>)
    ensures DataBytes(data) == Four(|data|) + data
  {
    FourIsLE(|data| % 4294967296);
    FourIgnoresTheRest(|data|);
  }

  lemma SmallFrame(m: Message)
    requires Small(m)
    ensures Frame(m) == FrameOf(m)
  {
    match m
    case Hello(v, name, ms, token) => HelloFrame(m);
    case Welcome(name) => TextIs(name); FramedIs(m, 2, Text(name));
    case Bye(reason) => TextIs(reason); FramedIs(m, 11, Text(reason));
    case MonitorsChanged(ms) => DisplayListIs(ms); FramedIs(m, 12, [(|ms| % 256) as byte] + Displays(ms));
    case ClipboardUpdate(_, _, _, _) => ClipboardFrame(m);
    case _ => FixedFrame(m);
  }

  lemma HelloFrame(m: Message)
    requires m.Hello? && Small(m)
    ensures Frame(m) == FrameOf(m)
  {
    TwoIsLE(m.version as int);
    TextIs(m.clientName);
    DisplayListIs(m.monitors);
    TextIs(m.token);
    FramedIs(m, 1, Body(m));
  }

  lemma ClipboardFrame(m: Message)
    requires m.ClipboardUpdate? && Small(m)
    ensures Frame(m) == FrameOf(m)
  {
    TextIs(m.origin);
    EightIsLE(m.counter as int);
    DataIs(m.data);
    FramedIs(m, 13, Body(m));
  }

  lemma FixedFrame(m: Message)
    requires m.MouseMove? || m.MouseAbs? || m.MouseButton? || m.MouseWheel? || m.KeyEvent? || m.Ping? || m.Pong? || m.Grab?
    ensures Frame(m) == FrameOf(m)
  {
    match m
    case MouseMove(dx, dy) => TwoIsLE(U16(dx) as int); TwoIsLE(U16(dy) as int); FramedIs(m, 3, Body(m));
    case MouseAbs(id, x, y) => TwoIsLE(x as int); TwoIsLE(y as int); FramedIs(m, 4, Body(m));
    case MouseButton(b, down) => FramedIs(m, 5, Body(m));
    case MouseWheel(dx, dy) => TwoIsLE(U16(dx) as int); TwoIsLE(U16(dy) as int); FramedIs(m, 6, Body(m));
    case KeyEvent(k, down) => TwoIsLE(k as int); FramedIs(m, 7, Body(m));
    case Ping(n) => FourIsLE(n as int); FramedIs(m, 8, Body(m));
    case Pong(n) => FourIsLE(n as int); FramedIs(m, 9, Body(m));
    case Grab(on) => FramedIs(m, 10, Body(m));
  }

  // ---- Beyond the limits ----

  /** At most the first n elements. */
  function First<T>(s: seq<T>, n: nat): seq<T> { if |s| <= n then s else s[..n] }

  function ShortDisplays(ms: seq<Monitor>): seq<Monitor> {
    if ms == [] then [] else [ms[0].(name := First(ms[0].name, 65535))] + ShortDisplays(ms[1..])
  }

  /** What is left of a message: of each string the first 65535 bytes, the first 16 monitors. */
  function Shortened(m: Message): Message {
    match m
    case Hello(v, name, ms, token) =>
      Hello(v, First(name, 65535), ShortDisplays(First(ms, 16)), First(token, 65535))
    case Welcome(name) => Welcome(First(name, 65535))
    case Bye(reason) => Bye(First(reason, 65535))
    case MonitorsChanged(ms) => MonitorsChanged(ShortDisplays(First(ms, 16)))
    case ClipboardUpdate(origin, n, format, data) => ClipboardUpdate(First(origin, 65535), n, format, data)
    case _ => m
  }

  lemma ShortText(s: seq<byte>)
    ensures StrBytes(First(s, 65535)) == StrBytes(s)
  {
    assert Cut(First(s, 65535), MAX_STR) == Cut(s, MAX_STR);
  }

  lemma {:induction false} ShortDisplaysAre(ms: seq<Monitor>)
    ensures |ShortDisplays(ms)| == |ms| && ManyMonitorBytes(ShortDisplays(ms)) == ManyMonitorBytes(ms)
    ensures forall i :: 0 <= i < |ms| ==> |ShortDisplays(ms)[i].name| <= 65535
  {
    if ms != [] {
      ShortText(ms[0].name);
      ShortDisplaysAre(ms[1..]);
      assert ShortDisplays(ms)[1..] == ShortDisplays(ms[1..]);
    }
  }

  lemma ShortDisplayList(ms: seq<Monitor>)
    ensures var few := ShortDisplays(First(ms, 16)); FewDisplays(few) && MonitorListBytes(few) == MonitorListBytes(ms)
  {
    var few := ShortDisplays(First(ms, 16));
    ShortDisplaysAre(First(ms, 16));
    assert Cut(ms, MAX_MONITORS) == First(ms, 16) && Cut(few, MAX_MONITORS) == few;
  }

  lemma ShortenedIsSmall(m: Message)
    ensures Small(Shortened(m)) && Tag(Shortened(m)) == Tag(m) && Body(Shortened(m)) == Body(m)
  {
    match m
    case Hello(v, name, ms, token) =>
      ShortText(name);
      ShortDisplayList(ms);
      ShortText(token);
    case Welcome(name) => ShortText(name);
    case Bye(reason) => ShortText(reason);
    case MonitorsChanged(ms) => ShortDisplayList(ms);
    case ClipboardUpdate(origin, _, _, _) => ShortText(origin);
    case _ =>
  }

  /** Every message is framed so, cut to the limits. */
  lemma FramesAreExact(m: Message)
    ensures Frame(m) == FrameOf(Shortened(m))
    ensures Small(m) ==> Frame(m) == FrameOf(m)
  {
    ShortenedIsSmall(m);
    SmallFrame(Shortened(m));
    if Small(m) { SmallFrame(m); }
  }

  /** So a key press, say, takes eight bytes. */
  lemma KeyFrame(k: uint16, down: bool)
    ensures Frame(KeyEvent(k, down))
         == [4, 0, 0, 0, 7, (k as int % 256) as byte, (k as int / 256) as byte, Flag(down)]
  {
    FramesAreExact(KeyEvent(k, down));
    assert Framed(7, Two(k as int) + [Flag(down)]) == Four(4) + [7] + (Two(k as int) + [Flag(down)]);
  }

  // ---- Limits ----

  /** The limit of a frame: 16 MiB for clipboard messages, 1 MiB for all others. */
  function LimitOf(tag: byte): nat { if tag == 13 then 16777216 else 1048576 }

  /** A message is sent exactly when type byte and body are within the limit of its type. */
  lemma FitsIff(m: Message)
    ensures Fits(m) <==> 1 + |Body(m)| <= if m.ClipboardUpdate? then 16777216 else 1048576
  {
  }

  function LengthOf(input: seq<byte>): nat
    requires |input| >= 4
  {
    input[0] as int + 256 * input[1] as int + 65536 * input[2] as int + 16777216 * input[3] as int
  }

  lemma LengthIs(input: seq<byte>)
    requires |input| >= 4
    ensures FromLE(input[..4]) == LengthOf(input)
  {
    var b := input[..4];
    assert b[1..][1..] == b[2..] && b[2..][1..] == b[3..] && b[3..][1..] == [];
    assert FromLE(b[3..]) == b[3] as int;
    assert FromLE(b[2..]) == b[2] as int + 256 * FromLE(b[3..]);
    assert FromLE(b[1..]) == b[1] as int + 256 * FromLE(b[2..]);
  }

  /** What a reader makes of the first five bytes, before it reads any body. */
  lemma HeaderDecides(input: seq<byte>)
    ensures |input| < 4 ==> ReadFrame(input) == (Refused(ShortRead), [])
    ensures |input| >= 4 && LengthOf(input) == 0 ==> ReadFrame(input) == (Refused(EmptyFrame), input[4..])
    ensures |input| >= 4 && LengthOf(input) > 16777216 ==> ReadFrame(input) == (Refused(FrameTooLarge), input[4..])
    ensures |input| == 4 && 0 < LengthOf(input) <= 16777216 ==> ReadFrame(input) == (Refused(ShortRead), [])
    ensures |input| >= 5 && LimitOf(input[4]) < LengthOf(input) <= 16777216 ==>
      ReadFrame(input) == (Refused(FrameTooLarge), input[5..])
    ensures |input| >= 5 && 0 < LengthOf(input) <= LimitOf(input[4]) && |input| < 4 + LengthOf(input) ==>
      ReadFrame(input) == (Refused(ShortRead), [])
    ensures |input| >= 5 && 0 < LengthOf(input) <= LimitOf(input[4]) && 4 + LengthOf(input) <= |input| ==>
      && ReadFrame(input).1 == input[4 + LengthOf(input)..]
      && (ReadFrame(input).0 == Refused(UnknownType) <==> input[4] == 0 || input[4] > 13)
  {
    if |input| >= 4 { LengthIs(input); }
  }

  /** A body list announcing more than sixteen monitors fails, whatever follows. */
  lemma TooManyDisplays(body: seq<byte>)
    requires |body| > 0 && body[0] > 16
    ensures ParsePayload(12, body) == Refused(Malformed)
  {
    assert TakeU8(Left(body)) == (body[0], Left(body[1..]));
    assert TakeMonitorList(Left(body)).1 == Failed;
    assert TakeBody(12, Left(body)) == TakeMonitors(Left(body));
  }

  /** Any byte but zero reads as true. */
  lemma FlagsRead(flag: byte, b: byte, low: byte, high: byte)
    ensures ParsePayload(10, [flag]) == Received(Grab(flag != 0))
    ensures ParsePayload(5, [b, flag]) == Received(MouseButton(b, flag != 0))
    ensures ParsePayload(7, [low, high, flag]) == Received(KeyEvent((low as int + 256 * high as int) as uint16, flag != 0))
  {
    assert TakeBody(10, Left([flag])) == TakeGrab(Left([flag]));
    assert TakeBody(5, Left([b, flag])) == TakeButton(Left([b, flag]));
    var body := [low, high, flag];
    assert TakeBody(7, Left(body)) == TakeKey(Left(body));
    assert body[..2] == [low, high] && [low, high][1..] == [high] && [high][1..] == [];
    assert FromLE([high]) == high as int;
    assert body[2..] == [flag];
  }
}
