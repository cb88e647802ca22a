/** The wire format as plain functions: how each value is written, and how far a
    reader gets into any byte string. */
module CodecSpec {
  import opened Wire

  const MAX_FRAME := 0x100_0000
  const MAX_CONTROL_FRAME := 0x10_0000
  const MAX_CLIPBOARD_DATA := 0x100_0000 - 256
  const MAX_MONITORS := 16
  const MAX_STR := 0xFFFF

  // ---- Little-endian integers ----

  function Pow256(k: nat): (p: nat)
    ensures p > 0
  {
    if k == 0 then 1 else 256 * Pow256(k - 1)
  }

  /** The k low-order bytes of v, least significant first. */
  function LE(v: nat, k: nat): (bs: seq<byte>)
    ensures |bs| == k
  {
    if k == 0 then [] else [(v % 256) as byte] + LE(v / 256, k - 1)
  }

  function FromLE(bs: seq<byte>): nat {
    if bs == [] then 0 else bs[0] as int + 256 * FromLE(bs[1..])
  }

  lemma {:induction false} FromLEBound(bs: seq<byte>)
    ensures FromLE(bs) < Pow256(|bs|)
  {
    if bs != [] { FromLEBound(bs[1..]); }
  }

  // Field widths as functions, so that the verifier does not unroll LE digit by digit.
  function W2(): nat { 2 }
  function W4(): nat { 4 }
  function W8(): nat { 8 }

  function Bytes2(v: nat): (bs: seq<byte>) ensures |bs| == 2 { LE(v, W2()) }
  function Bytes4(v: nat): (bs: seq<byte>) ensures |bs| == 4 { LE(v, W4()) }
  function Bytes8(v: nat): (bs: seq<byte>) ensures |bs| == 8 { LE(v, W8()) }

  lemma {:induction false} FromLEInvertsLE(v: nat, k: nat)
    requires v < Pow256(k)
    ensures FromLE(LE(v, k)) == v
  {
    if k > 0 {
      FromLEInvertsLE(v / 256, k - 1);
      assert LE(v, k)[1..] == LE(v / 256, k - 1);
    }
  }

  lemma Pow256Values()
    ensures Pow256(1) == 0x100 && Pow256(2) == 0x1_0000
    ensures Pow256(4) == 0x1_0000_0000 && Pow256(8) == 0x1_0000_0000_0000_0000
  {
    assert Pow256(3) == 0x100_0000;
    assert Pow256(5) == 256 * Pow256(4);
    assert Pow256(6) == 256 * Pow256(5);
    assert Pow256(7) == 256 * Pow256(6);
  }

  /** Two's-complement reinterpretation between signed and unsigned. */
  function U16(v: int16): uint16 { if v < 0 then (v as int + 0x1_0000) as uint16 else v as uint16 }
  function I16(v: uint16): int16 { if v >= 0x8000 then (v as int - 0x1_0000) as int16 else v as int16 }
  function U32(v: int32): uint32 { if v < 0 then (v as int + 0x1_0000_0000) as uint32 else v as uint32 }
  function I32(v: uint32): int32 { Int32(v as int) as int32 }

  // ---- Writing ----

  /** The first n elements, or everything when there are fewer. */
  function Cut<T>(s: seq<T>, n: nat): (c: seq<T>)
    ensures |c| <= n && (|s| <= n ==> c == s)
  {
    if |s| > n then s[..n] else s
  }

  function BoolBytes(b: bool): seq<byte> { [if b then 1 else 0] }

  /** Strings carry a 16-bit length and are cut to fit it. */
  function StrBytes(s: seq<byte>): seq<byte> {
    Bytes2(|Cut(s, MAX_STR)|) + Cut(s, MAX_STR)
  }

  /** Byte slices carry their length modulo 2^32; longer ones never fit a frame. */
  function DataBytes(s: seq<byte>): seq<byte> { Bytes4(|s| % 0x1_0000_0000) + s }

  function MonitorBytes(m: Monitor): seq<byte> {
    [m.id] + Bytes4(U32(m.x) as int) + Bytes4(U32(m.y) as int) + Bytes4(m.w as int) + Bytes4(m.h as int)
      + BoolBytes(m.primary) + StrBytes(m.name)
  }

  function ManyMonitorBytes(ms: seq<Monitor>): seq<byte> {
    if ms == [] then [] else MonitorBytes(ms[0]) + ManyMonitorBytes(ms[1..])
  }

  function MonitorListBytes(ms: seq<Monitor>): seq<byte> {
    [|Cut(ms, MAX_MONITORS)| as byte] + ManyMonitorBytes(Cut(ms, MAX_MONITORS))
  }

  function Tag(m: Message): byte {
    match m
    case Hello(_, _, _, _) => 1
    case Welcome(_) => 2
    case MouseMove(_, _) => 3
    case MouseAbs(_, _, _) => 4
    case MouseButton(_, _) => 5
    case MouseWheel(_, _) => 6
    case KeyEvent(_, _) => 7
    case Ping(_) => 8
    case Pong(_) => 9
    case Grab(_) => 10
    case Bye(_) => 11
    case MonitorsChanged(_) => 12
    case ClipboardUpdate(_, _, _, _) => 13
  }

  function Body(m: Message): seq<byte> {
    match m
    case Hello(v, name, ms, token) =>
      Bytes2(v as int) + StrBytes(name) + MonitorListBytes(ms) + StrBytes(token)
    case Welcome(name) => StrBytes(name)
    case MouseMove(dx, dy) => Bytes2(U16(dx) as int) + Bytes2(U16(dy) as int)
    case MouseAbs(id, x, y) => [id] + Bytes2(x as int) + Bytes2(y as int)
    case MouseButton(b, down) => [b] + BoolBytes(down)
    case MouseWheel(dx, dy) => Bytes2(U16(dx) as int) + Bytes2(U16(dy) as int)
    case KeyEvent(k, down) => Bytes2(k as int) + BoolBytes(down)
    case Ping(n) => Bytes4(n as int)
    case Pong(n) => Bytes4(n as int)
    case Grab(on) => BoolBytes(on)
    case Bye(reason) => StrBytes(reason)
    case MonitorsChanged(ms) => MonitorListBytes(ms)
    case ClipboardUpdate(origin, n, format, data) =>
      StrBytes(origin) + Bytes8(n as int) + [format] + DataBytes(data)
  }

  function FrameLimit(tag: byte): nat {
    if tag == 13 then MAX_FRAME else MAX_CONTROL_FRAME
  }

  function Payload(m: Message): (p: seq<byte>)
    ensures |p| > 0
  {
    [Tag(m)] + Body(m)
  }

  predicate Fits(m: Message) { |Payload(m)| <= FrameLimit(Tag(m)) }

  /** Length prefix, type tag, body. Only messages that fit are ever sent. */
  function Frame(m: Message): seq<byte> {
    Bytes4(|Payload(m)|) + Payload(m)
  }

  // ---- What a reader makes of a written message ----

  function NormalMonitor(m: Monitor): Monitor { m.(name := Cut(m.name, MAX_STR)) }

  function NormalMonitors(ms: seq<Monitor>): (ns: seq<Monitor>)
    ensures |ns| == |ms|
    ensures forall i :: 0 <= i < |ms| ==> ns[i] == NormalMonitor(ms[i])
  {
    if ms == [] then [] else [NormalMonitor(ms[0])] + NormalMonitors(ms[1..])
  }

  /** The truncation of a message to what the format can carry. */
  function Normal(m: Message): Message {
    match m
    case Hello(v, name, ms, token) =>
      Hello(v, Cut(name, MAX_STR), NormalMonitors(Cut(ms, MAX_MONITORS)), Cut(token, MAX_STR))
    case Welcome(name) => Welcome(Cut(name, MAX_STR))
    case Bye(reason) => Bye(Cut(reason, MAX_STR))
    case MonitorsChanged(ms) => MonitorsChanged(NormalMonitors(Cut(ms, MAX_MONITORS)))
    case ClipboardUpdate(origin, n, format, data) =>
      ClipboardUpdate(Cut(origin, MAX_STR), n, format, data)
    case _ => m
  }

  predicate MonitorsInRange(ms: seq<Monitor>) {
    |ms| <= MAX_MONITORS && forall i :: 0 <= i < |ms| ==> |ms[i].name| <= MAX_STR
  }

  /** Within the format's limits: nothing would be truncated. */
  predicate InRange(m: Message) {
    match m
    case Hello(_, name, ms, token) => |name| <= MAX_STR && |token| <= MAX_STR && MonitorsInRange(ms)
    case Welcome(name) => |name| <= MAX_STR
    case Bye(reason) => |reason| <= MAX_STR
    case MonitorsChanged(ms) => MonitorsInRange(ms)
    case ClipboardUpdate(origin, _, _, _) => |origin| <= MAX_STR
    case _ => true
  }

  // ---- Reading: each step consumes some bytes or fails for good ----

  /** What a decoder still has to read, or its latched error. */
  datatype Input = Left(rest: seq<byte>) | Failed

  function TakeBytes(c: Input, n: nat): (seq<byte>, Input) {
    match c
    case Failed => ([], Failed)
    case Left(b) => if |b| < n then ([], Failed) else (b[..n], Left(b[n..]))
  }

  /** A failed read yields zero. */
  function TakeNat(c: Input, k: nat): (nat, Input) {
    match c
    case Failed => (0, Failed)
    case Left(b) => if |b| < k then (0, Failed) else (FromLE(b[..k]), Left(b[k..]))
  }

  lemma TakeNatBound(c: Input, k: nat)
    ensures TakeNat(c, k).0 < Pow256(k)
  {
    if c.Left? && |c.rest| >= k { FromLEBound(c.rest[..k]); }
  }

  function TakeU8(c: Input): (byte, Input) {
    match c
    case Failed => (0, Failed)
    case Left(b) => if |b| < 1 then (0, Failed) else (b[0], Left(b[1..]))
  }

  /** Every non-zero byte reads as true. */
  function TakeBool(c: Input): (bool, Input) { (TakeU8(c).0 != 0, TakeU8(c).1) }

  function TakeU16(c: Input): (uint16, Input) {
    Pow256Values(); TakeNatBound(c, 2);
    (TakeNat(c, 2).0 as uint16, TakeNat(c, 2).1)
  }

  function TakeI16(c: Input): (int16, Input) { (I16(TakeU16(c).0), TakeU16(c).1) }

  function TakeU32(c: Input): (uint32, Input) {
    Pow256Values(); TakeNatBound(c, 4);
    (TakeNat(c, 4).0 as uint32, TakeNat(c, 4).1)
  }

  function TakeI32(c: Input): (int32, Input) { (I32(TakeU32(c).0), TakeU32(c).1) }

  function TakeU64(c: Input): (uint64, Input) {
    Pow256Values(); TakeNatBound(c, 8);
    (TakeNat(c, 8).0 as uint64, TakeNat(c, 8).1)
  }

  function TakeStr(c: Input): (seq<byte>, Input) {
    var n := TakeU16(c);
    TakeBytes(n.1, n.0 as int)
  }

  function TakeData(c: Input): (seq<byte>, Input) {
    var n := TakeU32(c);
    if n.0 as int > MAX_FRAME then ([], Failed) else TakeBytes(n.1, n.0 as int)
  }

  function TakeMonitor(c: Input): (Monitor, Input) {
    var id := TakeU8(c);
    var x := TakeI32(id.1);
    var y := TakeI32(x.1);
    var w := TakeU32(y.1);
    var h := TakeU32(w.1);
    var primary := TakeBool(h.1);
    var name := TakeStr(primary.1);
    (Monitor(id.0, x.0, y.0, w.0, h.0, primary.0, name.0), name.1)
  }

  /** n values in a row, each read by take; nothing at all when any of them fails. */
  function TakeMany<T>(take: Input -> (T, Input), c: Input, n: nat): (seq<T>, Input)
    decreases n
  {
    if n == 0 then ([], c)
    else
      var m := take(c);
      var rest := TakeMany(take, m.1, n - 1);
      if rest.1.Failed? then ([], Failed) else ([m.0] + rest.0, rest.1)
  }

  lemma {:induction false} FailedStaysFailed<T(!new)>(take: Input -> (T, Input), n: nat)
    requires take(Failed).1 == Failed
    ensures TakeMany(take, Failed, n).1 == Failed
  {
    if n > 0 { FailedStaysFailed(take, n - 1); }
  }

  function TakeMonitorList(c: Input): (seq<Monitor>, Input) {
    var n := TakeU8(c);
    if n.0 as int > MAX_MONITORS then ([], Failed) else TakeMany(TakeMonitor, n.1, n.0 as int)
  }

  predicate KnownTag(t: byte) { 1 <= t <= 13 }

  function TakeHello(c: Input): (Message, Input) {
    var v := TakeU16(c);
    var name := TakeStr(v.1);
    var ms := TakeMonitorList(name.1);
    var token := TakeStr(ms.1);
    (Hello(v.0, name.0, ms.0, token.0), token.1)
  }

  function TakeClipboard(c: Input): (Message, Input) {
    var origin := TakeStr(c);
    var n := TakeU64(origin.1);
    var format := TakeU8(n.1);
    var data := TakeData(format.1);
    (ClipboardUpdate(origin.0, n.0, format.0, data.0), data.1)
  }

  function TakeWelcome(c: Input): (Message, Input) { (Welcome(TakeStr(c).0), TakeStr(c).1) }

  function TakeBye(c: Input): (Message, Input) { (Bye(TakeStr(c).0), TakeStr(c).1) }

  function TakeMove(c: Input): (Message, Input) {
    var dx := TakeI16(c);
    var dy := TakeI16(dx.1);
    (MouseMove(dx.0, dy.0), dy.1)
  }

  function TakeWheel(c: Input): (Message, Input) {
    var dx := TakeI16(c);
    var dy := TakeI16(dx.1);
    (MouseWheel(dx.0, dy.0), dy.1)
  }

  function TakeAbs(c: Input): (Message, Input) {
    var id := TakeU8(c);
    var x := TakeU16(id.1);
    var y := TakeU16(x.1);
    (MouseAbs(id.0, x.0, y.0), y.1)
  }

  function TakeButton(c: Input): (Message, Input) {
    var b := TakeU8(c);
    var down := TakeBool(b.1);
    (MouseButton(b.0, down.0), down.1)
  }

  function TakeKey(c: Input): (Message, Input) {
    var k := TakeU16(c);
    var down := TakeBool(k.1);
    (KeyEvent(k.0, down.0), down.1)
  }

  function TakePing(c: Input): (Message, Input) { (Ping(TakeU32(c).0), TakeU32(c).1) }

  function TakePong(c: Input): (Message, Input) { (Pong(TakeU32(c).0), TakeU32(c).1) }

  function TakeGrab(c: Input): (Message, Input) { (Grab(TakeBool(c).0), TakeBool(c).1) }

  function TakeMonitors(c: Input): (Message, Input) {
    (MonitorsChanged(TakeMonitorList(c).0), TakeMonitorList(c).1)
  }

  function BodyReader(t: byte): Input -> (Message, Input)
    requires KnownTag(t)
  {
    if t == 1 then TakeHello
    else if t == 2 then TakeWelcome
    else if t == 3 then TakeMove
    else if t == 4 then TakeAbs
    else if t == 5 then TakeButton
    else if t == 6 then TakeWheel
    else if t == 7 then TakeKey
    else if t == 8 then TakePing
    else if t == 9 then TakePong
    else if t == 10 then TakeGrab
    else if t == 11 then TakeBye
    else if t == 12 then TakeMonitors
    else TakeClipboard
  }

  /** The message a payload of the given type holds, and what follows it. */
  function TakeBody(t: byte, c: Input): (Message, Input)
    requires KnownTag(t)
  {
    BodyReader(t)(c)
  }

  datatype ReadError = ShortRead | EmptyFrame | FrameTooLarge | UnknownType | Malformed | TrailingBytes

  datatype ReadResult = Received(msg: Message) | Refused(error: ReadError)

  /** The message in one complete payload: exactly one body, nothing before or after. */
  function ParsePayload(t: byte, body: seq<byte>): ReadResult {
    if !KnownTag(t) then Refused(UnknownType)
    else
      var r := TakeBody(t, Left(body));
      if r.1.Failed? then Refused(Malformed)
      else if r.1.rest != [] then Refused(TrailingBytes)
      else Received(r.0)
  }

  /** One framed message from the front of a byte stream, and what is left of the
      stream. A short read swallows what there is. */
  function ReadFrame(input: seq<byte>): (ReadResult, seq<byte>) {
    if |input| < 4 then (Refused(ShortRead), [])
    else
      var length := FromLE(input[..4]);
      if length == 0 then (Refused(EmptyFrame), input[4..])
      else if length > MAX_FRAME then (Refused(FrameTooLarge), input[4..])
      else if |input| < 5 then (Refused(ShortRead), [])
      else if length > FrameLimit(input[4]) then (Refused(FrameTooLarge), input[5..])
      else if |input| < 4 + length then (Refused(ShortRead), [])
      else (ParsePayload(input[4], input[5..4 + length]), input[4 + length..])
  }
}
