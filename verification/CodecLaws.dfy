/** Laws of the wire format: what is written is what is read, and what is read could
    have been written. */
module CodecLaws {
  import opened Wire
  import opened CodecSpec

  // ---- Reading back what was written, one value at a time ----

  lemma BackNat(v: nat, k: nat, rest: seq<byte>)
    requires v < Pow256(k)
    ensures TakeNat(Left(LE(v, k) + rest), k) == (v, Left(rest))
  {
    FromLEInvertsLE(v, k);
    assert (LE(v, k) + rest)[..k] == LE(v, k) && (LE(v, k) + rest)[k..] == rest;
  }

  lemma BackU16(v: uint16, rest: seq<byte>)
    ensures TakeU16(Left(Bytes2(v as int) + rest)) == (v, Left(rest))
  {
    Pow256Values();
    BackNat(v as int, W2(), rest);
  }

  lemma BackI16(v: int16, rest: seq<byte>)
    ensures TakeI16(Left(Bytes2(U16(v) as int) + rest)) == (v, Left(rest))
  {
    BackU16(U16(v), rest);
  }

  lemma BackU32(v: uint32, rest: seq<byte>)
    ensures TakeU32(Left(Bytes4(v as int) + rest)) == (v, Left(rest))
  {
    Pow256Values();
    BackNat(v as int, W4(), rest);
  }

  lemma BackI32(v: int32, rest: seq<byte>)
    ensures TakeI32(Left(Bytes4(U32(v) as int) + rest)) == (v, Left(rest))
  {
    BackU32(U32(v), rest);
  }

  lemma BackU64(v: uint64, rest: seq<byte>)
    ensures TakeU64(Left(Bytes8(v as int) + rest)) == (v, Left(rest))
  {
    Pow256Values();
    BackNat(v as int, W8(), rest);
  }

  lemma BackU8(v: byte, rest: seq<byte>)
    ensures TakeU8(Left([v] + rest)) == (v, Left(rest))
  {
    assert ([v] + rest)[1..] == rest;
  }

  lemma BackBool(v: bool, rest: seq<byte>)
    ensures TakeBool(Left(BoolBytes(v) + rest)) == (v, Left(rest))
  {
    BackU8(if v then 1 else 0, rest);
  }

  lemma BackStr(s: seq<byte>, rest: seq<byte>)
    ensures TakeStr(Left(StrBytes(s) + rest)) == (Cut(s, MAX_STR), Left(rest))
  {
    var c := Cut(s, MAX_STR);
    assert StrBytes(s) + rest == Bytes2(|c|) + (c + rest);
    BackU16(|c| as uint16, c + rest);
    assert (c + rest)[..|c|] == c && (c + rest)[|c|..] == rest;
  }

  lemma BackData(s: seq<byte>, rest: seq<byte>)
    requires |s| <= MAX_FRAME
    ensures TakeData(Left(DataBytes(s) + rest)) == (s, Left(rest))
  {
    assert DataBytes(s) + rest == Bytes4(|s|) + (s + rest);
    BackU32(|s| as uint32, s + rest);
    assert (s + rest)[..|s|] == s && (s + rest)[|s|..] == rest;
  }

  lemma BackMonitor(m: Monitor, rest: seq<byte>)
    ensures TakeMonitor(Left(MonitorBytes(m) + rest)) == (NormalMonitor(m), Left(rest))
  {
    var r6 := StrBytes(m.name) + rest;
    var r5 := BoolBytes(m.primary) + r6;
    var r4 := Bytes4(m.h as int) + r5;
    var r3 := Bytes4(m.w as int) + r4;
    var r2 := Bytes4(U32(m.y) as int) + r3;
    var r1 := Bytes4(U32(m.x) as int) + r2;
    assert MonitorBytes(m) + rest == [m.id] + r1;
    BackU8(m.id, r1);
    BackI32(m.x, r2);
    BackI32(m.y, r3);
    BackU32(m.w, r4);
    BackU32(m.h, r5);
    BackBool(m.primary, r6);
    BackStr(m.name, rest);
  }

  // ---- Lists and streams, for any reader and writer ----

  /** take reads back, as norm, whatever put wrote of the values that fit. */
  ghost predicate ReadsBack<T(!new)>(
    take: Input -> (T, Input), put: T -> seq<byte>, norm: T -> T, fits: T -> bool)
  {
    forall m, rest :: fits(m) ==> take(Left(put(m) + rest)) == (norm(m), Left(rest))
  }

  function PutMany<T>(put: T -> seq<byte>, ms: seq<T>): seq<byte> {
    if ms == [] then [] else put(ms[0]) + PutMany(put, ms[1..])
  }

  function MapMany<T>(norm: T -> T, ms: seq<T>): (ns: seq<T>)
    ensures |ns| == |ms| && forall i :: 0 <= i < |ms| ==> ns[i] == norm(ms[i])
  {
    if ms == [] then [] else [norm(ms[0])] + MapMany(norm, ms[1..])
  }

  /** A list written value by value is read back value by value. */
  lemma {:induction false} BackMany<T(!new)>(
    take: Input -> (T, Input), put: T -> seq<byte>, norm: T -> T, fits: T -> bool, ms: seq<T>, rest: seq<byte>)
    requires ReadsBack(take, put, norm, fits) && forall i :: 0 <= i < |ms| ==> fits(ms[i])
    ensures TakeMany(take, Left(PutMany(put, ms) + rest), |ms|) == (MapMany(norm, ms), Left(rest))
  {
    if ms == [] {
      assert PutMany(put, ms) + rest == rest;
    } else {
      var tail := PutMany(put, ms[1..]) + rest;
      assert PutMany(put, ms) + rest == put(ms[0]) + tail;
      BackMany(take, put, norm, fits, ms[1..], rest);
    }
  }

  lemma {:induction false} ManyIsPutMany(ms: seq<Monitor>)
    ensures ManyMonitorBytes(ms) == PutMany(MonitorBytes, ms)
    ensures NormalMonitors(ms) == MapMany(NormalMonitor, ms)
  {
    if ms != [] { ManyIsPutMany(ms[1..]); }
  }

  predicate AnyMonitor(m: Monitor) { true }

  lemma MonitorsReadBack()
    ensures ReadsBack(TakeMonitor, MonitorBytes, NormalMonitor, AnyMonitor)
  {
    forall m: Monitor, rest: seq<byte>
      ensures TakeMonitor(Left(MonitorBytes(m) + rest)) == (NormalMonitor(m), Left(rest))
    {
      BackMonitor(m, rest);
    }
  }

  lemma BackMonitorList(ms: seq<Monitor>, rest: seq<byte>)
    ensures TakeMonitorList(Left(MonitorListBytes(ms) + rest))
         == (NormalMonitors(Cut(ms, MAX_MONITORS)), Left(rest))
  {
    var cut := Cut(ms, MAX_MONITORS);
    assert MonitorListBytes(ms) + rest == [|cut| as byte] + (ManyMonitorBytes(cut) + rest);
    BackU8(|cut| as byte, ManyMonitorBytes(cut) + rest);
    MonitorsReadBack();
    ManyIsPutMany(cut);
    BackMany(TakeMonitor, MonitorBytes, NormalMonitor, AnyMonitor, cut, rest);
  }

  // ---- Messages ----

  lemma BackHello(m: Message, rest: seq<byte>)
    requires m.Hello?
    ensures TakeHello(Left(Body(m) + rest)) == (Normal(m), Left(rest))
  {
    var r3 := StrBytes(m.token) + rest;
    var r2 := MonitorListBytes(m.monitors) + r3;
    var r1 := StrBytes(m.clientName) + r2;
    assert Body(m) + rest == Bytes2(m.version as int) + r1;
    BackU16(m.version, r1);
    BackStr(m.clientName, r2);
    BackMonitorList(m.monitors, r3);
    BackStr(m.token, rest);
  }

  lemma BackClipboard(m: Message, rest: seq<byte>)
    requires m.ClipboardUpdate? && |m.data| <= MAX_FRAME
    ensures TakeClipboard(Left(Body(m) + rest)) == (Normal(m), Left(rest))
  {
    var r3 := DataBytes(m.data) + rest;
    var r2 := [m.format] + r3;
    var r1 := Bytes8(m.counter as int) + r2;
    assert Body(m) + rest == StrBytes(m.origin) + r1;
    BackStr(m.origin, r1);
    BackU64(m.counter, r2);
    BackU8(m.format, r3);
    BackData(m.data, rest);
  }

  lemma BackMove(m: Message, rest: seq<byte>)
    requires m.MouseMove?
    ensures TakeMove(Left(Body(m) + rest)) == (m, Left(rest))
  {
    var r1 := Bytes2(U16(m.dy) as int) + rest;
    assert Body(m) + rest == Bytes2(U16(m.dx) as int) + r1;
    BackI16(m.dx, r1);
    BackI16(m.dy, rest);
  }

  lemma BackWheel(m: Message, rest: seq<byte>)
    requires m.MouseWheel?
    ensures TakeWheel(Left(Body(m) + rest)) == (m, Left(rest))
  {
    var r1 := Bytes2(U16(m.dy) as int) + rest;
    assert Body(m) + rest == Bytes2(U16(m.dx) as int) + r1;
    BackI16(m.dx, r1);
    BackI16(m.dy, rest);
  }

  lemma BackAbs(m: Message, rest: seq<byte>)
    requires m.MouseAbs?
    ensures TakeAbs(Left(Body(m) + rest)) == (m, Left(rest))
  {
    var r2 := Bytes2(m.y as int) + rest;
    var r1 := Bytes2(m.x as int) + r2;
    assert Body(m) + rest == [m.monitorId] + r1;
    BackU8(m.monitorId, r1);
    BackU16(m.x, r2);
    BackU16(m.y, rest);
  }

  lemma BackButton(m: Message, rest: seq<byte>)
    requires m.MouseButton?
    ensures TakeButton(Left(Body(m) + rest)) == (m, Left(rest))
  {
    assert Body(m) + rest == [m.button] + (BoolBytes(m.down) + rest);
    BackU8(m.button, BoolBytes(m.down) + rest);
    BackBool(m.down, rest);
  }

  lemma BackKey(m: Message, rest: seq<byte>)
    requires m.KeyEvent?
    ensures TakeKey(Left(Body(m) + rest)) == (m, Left(rest))
  {
    assert Body(m) + rest == Bytes2(m.code as int) + (BoolBytes(m.down) + rest);
    BackU16(m.code, BoolBytes(m.down) + rest);
    BackBool(m.down, rest);
  }

  lemma BackWelcome(m: Message, rest: seq<byte>)
    requires m.Welcome?
    ensures TakeWelcome(Left(Body(m) + rest)) == (Normal(m), Left(rest))
  {
    BackStr(m.assignedName, rest);
  }

  lemma BackBye(m: Message, rest: seq<byte>)
    requires m.Bye?
    ensures TakeBye(Left(Body(m) + rest)) == (Normal(m), Left(rest))
  {
    BackStr(m.reason, rest);
  }

  lemma BackHeartbeat(m: Message, rest: seq<byte>)
    requires m.Ping? || m.Pong?
    ensures (if m.Ping? then TakePing else TakePong)(Left(Body(m) + rest)) == (m, Left(rest))
  {
    BackU32(m.nonce, rest);
  }

  lemma BackGrab(m: Message, rest: seq<byte>)
    requires m.Grab?
    ensures TakeGrab(Left(Body(m) + rest)) == (m, Left(rest))
  {
    BackBool(m.on, rest);
  }

  lemma BackMonitors(m: Message, rest: seq<byte>)
    requires m.MonitorsChanged?
    ensures TakeMonitors(Left(Body(m) + rest)) == (Normal(m), Left(rest))
  {
    BackMonitorList(m.monitors, rest);
  }

  /** A type's reader applied to c is what reading a body of that type gives. */
  lemma ReaderApplies(t: byte, read: Input -> (Message, Input), c: Input, r: (Message, Input))
    requires KnownTag(t) && BodyReader(t) == read && read(c) == r
    ensures TakeBody(t, c) == r
  {
  }

  lemma BackPointer(m: Message, rest: seq<byte>)
    requires m.MouseMove? || m.MouseAbs? || m.MouseWheel?
    ensures TakeBody(Tag(m), Left(Body(m) + rest)) == (Normal(m), Left(rest))
  {
    var c, r := Left(Body(m) + rest), (Normal(m), Left(rest));
    if m.MouseMove? {
      BackMove(m, rest);
      ReaderApplies(Tag(m), TakeMove, c, r);
    } else if m.MouseAbs? {
      BackAbs(m, rest);
      ReaderApplies(Tag(m), TakeAbs, c, r);
    } else {
      BackWheel(m, rest);
      ReaderApplies(Tag(m), TakeWheel, c, r);
    }
  }

  lemma BackPress(m: Message, rest: seq<byte>)
    requires m.MouseButton? || m.KeyEvent? || m.Grab?
    ensures TakeBody(Tag(m), Left(Body(m) + rest)) == (Normal(m), Left(rest))
  {
    var c, r := Left(Body(m) + rest), (Normal(m), Left(rest));
    if m.MouseButton? {
      BackButton(m, rest);
      ReaderApplies(Tag(m), TakeButton, c, r);
    } else if m.KeyEvent? {
      BackKey(m, rest);
      ReaderApplies(Tag(m), TakeKey, c, r);
    } else {
      BackGrab(m, rest);
      ReaderApplies(Tag(m), TakeGrab, c, r);
    }
  }

  lemma BackControl(m: Message, rest: seq<byte>)
    requires m.Welcome? || m.Bye? || m.Ping? || m.Pong?
    ensures TakeBody(Tag(m), Left(Body(m) + rest)) == (Normal(m), Left(rest))
  {
    var c, r := Left(Body(m) + rest), (Normal(m), Left(rest));
    if m.Welcome? {
      BackWelcome(m, rest);
      ReaderApplies(Tag(m), TakeWelcome, c, r);
    } else if m.Bye? {
      BackBye(m, rest);
      ReaderApplies(Tag(m), TakeBye, c, r);
    } else if m.Ping? {
      BackHeartbeat(m, rest);
      ReaderApplies(Tag(m), TakePing, c, r);
    } else {
      BackHeartbeat(m, rest);
      ReaderApplies(Tag(m), TakePong, c, r);
    }
  }

  lemma BackBulk(m: Message, rest: seq<byte>)
    requires m.Hello? || m.MonitorsChanged? || (m.ClipboardUpdate? && |m.data| <= MAX_FRAME)
    ensures TakeBody(Tag(m), Left(Body(m) + rest)) == (Normal(m), Left(rest))
  {
    var c, r := Left(Body(m) + rest), (Normal(m), Left(rest));
    if m.Hello? {
      BackHello(m, rest);
      ReaderApplies(Tag(m), TakeHello, c, r);
    } else if m.MonitorsChanged? {
      BackMonitors(m, rest);
      ReaderApplies(Tag(m), TakeMonitors, c, r);
    } else {
      BackClipboard(m, rest);
      ReaderApplies(Tag(m), TakeClipboard, c, r);
    }
  }

  lemma FittingDataIsShort(m: Message)
    requires Fits(m)
    ensures m.ClipboardUpdate? ==> |m.data| <= MAX_FRAME
  {
  }

  /** Reading the body of any message that fits a frame gives its truncation and
      stops exactly where the body stops. */
  lemma BackBody(m: Message, rest: seq<byte>)
    requires Fits(m)
    ensures TakeBody(Tag(m), Left(Body(m) + rest)) == (Normal(m), Left(rest))
  {
    FittingDataIsShort(m);
    if m.Hello? || m.MonitorsChanged? || m.ClipboardUpdate? { BackBulk(m, rest); }
    else if m.Welcome? || m.Bye? || m.Ping? || m.Pong? { BackControl(m, rest); }
    else if m.MouseButton? || m.KeyEvent? || m.Grab? { BackPress(m, rest); }
    else { BackPointer(m, rest); }
  }

  lemma SplitFrame(h: seq<byte>, tag: byte, body: seq<byte>, rest: seq<byte>)
    requires |h| == 4
    ensures var input := h + ([tag] + body) + rest;
      var n := 1 + |body|;
      && |input| >= 5 && input[..4] == h && input[4] == tag
      && input[5..4 + n] == body && input[4 + n..] == rest
  {
  }

  lemma HeaderOf(tag: byte, body: seq<byte>, rest: seq<byte>)
    requires 1 + |body| <= MAX_FRAME
    ensures var n := 1 + |body|;
      var input := Bytes4(n) + ([tag] + body) + rest;
      && |input| >= 5 && FromLE(input[..4]) == n && input[4] == tag
      && input[5..4 + n] == body && input[4 + n..] == rest
  {
    Pow256Values();
    FromLEInvertsLE(1 + |body|, W4());
    SplitFrame(Bytes4(1 + |body|), tag, body, rest);
  }

  lemma FrameHeader(m: Message, rest: seq<byte>)
    requires Fits(m)
    ensures var input := Frame(m) + rest;
      && |input| >= 5 && FromLE(input[..4]) == |Payload(m)| && input[4] == Tag(m)
      && |Frame(m)| == 4 + |Payload(m)|
      && input[5..4 + |Payload(m)|] == Body(m) && input[4 + |Payload(m)|..] == rest
  {
    HeaderOf(Tag(m), Body(m), rest);
  }

  lemma PayloadRoundTrip(m: Message)
    requires Fits(m)
    ensures ParsePayload(Tag(m), Body(m)) == Received(Normal(m))
  {
    BackBody(m, []);
    assert Body(m) + [] == Body(m);
  }

  /** Frame round trip: reading a written frame gives the message, truncated to what
      the format carries, and leaves exactly the bytes that followed. */
  lemma FrameRoundTrip(m: Message, rest: seq<byte>)
    requires Fits(m)
    ensures ReadFrame(Frame(m) + rest) == (Received(Normal(m)), rest)
  {
    FrameHeader(m, rest);
    PayloadRoundTrip(m);
  }

  lemma NormalMonitorsInRange(ms: seq<Monitor>)
    requires MonitorsInRange(ms)
    ensures NormalMonitors(ms) == ms
  {
  }

  lemma CutListIsShort(ms: seq<Monitor>)
    requires NormalMonitors(Cut(ms, MAX_MONITORS)) == ms
    ensures MonitorsInRange(ms)
  {
    forall i | 0 <= i < |ms| ensures |ms[i].name| <= MAX_STR {
      assert ms[i] == NormalMonitor(Cut(ms, MAX_MONITORS)[i]);
    }
  }

  /** Messages within the format's limits, and only those, come back unchanged. */
  lemma InRangeIsNormal(m: Message)
    ensures InRange(m) <==> Normal(m) == m
  {
    match m
    case Hello(_, _, ms, _) =>
      if Normal(m) == m { CutListIsShort(ms); }
      if MonitorsInRange(ms) { NormalMonitorsInRange(ms); }
    case MonitorsChanged(ms) =>
      if Normal(m) == m { CutListIsShort(ms); }
      if MonitorsInRange(ms) { NormalMonitorsInRange(ms); }
    case _ =>
  }

  // ---- Streams ----

  /** ReadFrame as a reader that stops for good at the first refused frame. */
  function TakeFrame(c: Input): (Message, Input) {
    match c
    case Failed => (Ping(0), Failed)
    case Left(b) =>
      var r := ReadFrame(b);
      if r.0.Received? then (r.0.msg, Left(r.1)) else (Ping(0), Failed)
  }

  lemma FramesReadBack()
    ensures ReadsBack(TakeFrame, Frame, Normal, Fits)
  {
    forall m: Message, rest: seq<byte> | Fits(m)
      ensures TakeFrame(Left(Frame(m) + rest)) == (Normal(m), Left(rest))
    {
      FrameRoundTrip(m, rest);
    }
  }

  /** Stream round trip: any list of frames is read back message by message, whatever
      bytes follow, and those bytes are left untouched. */
  lemma StreamRoundTrip(ms: seq<Message>, tail: seq<byte>)
    requires forall i :: 0 <= i < |ms| ==> Fits(ms[i])
    ensures TakeMany(TakeFrame, Left(PutMany(Frame, ms) + tail), |ms|)
         == (MapMany(Normal, ms), Left(tail))
  {
    FramesReadBack();
    BackMany(TakeFrame, Frame, Normal, Fits, ms, tail);
  }

  // ---- Arbitrary bytes ----

  /** How many bytes lie between the readers c and d. */
  predicate Consumed(c: Input, d: Input, n: nat) {
    c.Left? && d.Left? && |c.rest| == n + |d.rest|
  }

  lemma StrLength(c: Input)
    ensures var r := TakeStr(c);
      r.1.Left? ==> |r.0| <= MAX_STR && Consumed(c, r.1, |StrBytes(r.0)|)
  {
  }

  lemma DataLength(c: Input)
    ensures var r := TakeData(c);
      r.1.Left? ==> |r.0| <= MAX_FRAME && Consumed(c, r.1, |DataBytes(r.0)|)
  {
  }

  function MonitorSize(m: Monitor): nat { 20 + |Cut(m.name, MAX_STR)| }

  predicate NameFits(m: Monitor) { |m.name| <= MAX_STR }

  lemma MonitorLength(c: Input)
    ensures var r := TakeMonitor(c);
      r.1.Left? ==> NameFits(r.0) && Consumed(c, r.1, MonitorSize(r.0))
  {
    StrLength(TakeBool(TakeU32(TakeU32(TakeI32(TakeI32(TakeU8(c).1).1).1).1).1).1);
  }

  /** take consumes size bytes for every value it reads, and reads only ok ones. */
  ghost predicate Measured<T(!new)>(take: Input -> (T, Input), ok: T -> bool, size: T -> nat) {
    forall c :: take(c).1.Left? ==> ok(take(c).0) && Consumed(c, take(c).1, size(take(c).0))
  }

  function TotalSize<T>(size: T -> nat, ms: seq<T>): nat {
    if ms == [] then 0 else size(ms[0]) + TotalSize(size, ms[1..])
  }

  lemma {:induction false} ManyLength<T(!new)>(
    take: Input -> (T, Input), ok: T -> bool, size: T -> nat, c: Input, n: nat)
    requires Measured(take, ok, size)
    ensures var r := TakeMany(take, c, n);
      r.1.Left? ==>
        (|r.0| == n && (forall i :: 0 <= i < n ==> ok(r.0[i])) && Consumed(c, r.1, TotalSize(size, r.0)))
    decreases n
  {
    if n > 0 {
      var m := take(c);
      if m.1.Left? {
        ManyLength(take, ok, size, m.1, n - 1);
        var rest := TakeMany(take, m.1, n - 1);
        assert ([m.0] + rest.0)[1..] == rest.0;
      } else {
        assert take(Failed).1 == Failed;
        FailedStaysFailed(take, n - 1);
      }
    }
  }

  lemma MonitorsMeasured()
    ensures Measured(TakeMonitor, NameFits, MonitorSize)
  {
    forall c: Input
      ensures TakeMonitor(c).1.Left? ==>
        NameFits(TakeMonitor(c).0) && Consumed(c, TakeMonitor(c).1, MonitorSize(TakeMonitor(c).0))
    {
      MonitorLength(c);
    }
  }

  lemma MonitorBytesSize(m: Monitor)
    ensures |MonitorBytes(m)| == MonitorSize(m)
  {
  }

  lemma {:induction false} ManyBytesSize(ms: seq<Monitor>)
    ensures |ManyMonitorBytes(ms)| == TotalSize(MonitorSize, ms)
  {
    if ms != [] {
      MonitorBytesSize(ms[0]);
      ManyBytesSize(ms[1..]);
    }
  }

  lemma CountedMonitorsLength(c: Input, n: nat)
    requires n <= MAX_MONITORS
    ensures var r := TakeMany(TakeMonitor, c, n);
      r.1.Left? ==> |r.0| == n && MonitorsInRange(r.0) && Consumed(c, r.1, |ManyMonitorBytes(r.0)|)
  {
    var r := TakeMany(TakeMonitor, c, n);
    MonitorsMeasured();
    ManyLength(TakeMonitor, NameFits, MonitorSize, c, n);
    ManyBytesSize(r.0);
    assert r.1.Left? ==> forall i :: 0 <= i < n ==> NameFits(r.0[i]);
  }

  lemma MonitorListLength(c: Input)
    ensures var r := TakeMonitorList(c);
      r.1.Left? ==> MonitorsInRange(r.0) && Consumed(c, r.1, |MonitorListBytes(r.0)|)
  {
    var n := TakeU8(c);
    if n.1.Left? && n.0 as int <= MAX_MONITORS {
      CountedMonitorsLength(n.1, n.0 as int);
    } else if n.1.Failed? {
      FailedStaysFailed(TakeMonitor, n.0 as int);
    }
  }

  /** What was read from c is a message within the format's limits, and as long as what
      would be written for it. */
  predicate Exact(c: Input, r: (Message, Input)) {
    r.1.Left? ==> InRange(r.0) && Consumed(c, r.1, |Body(r.0)|)
  }

  lemma HelloLength(c: Input)
    ensures Exact(c, TakeHello(c))
  {
    var v := TakeU16(c);
    var name := TakeStr(v.1);
    var ms := TakeMonitorList(name.1);
    StrLength(v.1);
    MonitorListLength(name.1);
    StrLength(ms.1);
  }

  lemma ClipboardLength(c: Input)
    ensures Exact(c, TakeClipboard(c))
  {
    StrLength(c);
    DataLength(TakeU8(TakeU64(TakeStr(c).1).1).1);
  }

  lemma MonitorsLength(c: Input)
    ensures Exact(c, TakeMonitors(c))
  {
    MonitorListLength(c);
  }

  lemma TextLength(c: Input)
    ensures Exact(c, TakeWelcome(c)) && Exact(c, TakeBye(c))
  {
    StrLength(c);
  }

  lemma DeltaLength(c: Input)
    ensures Exact(c, TakeMove(c)) && Exact(c, TakeWheel(c))
  {}

  lemma AbsLength(c: Input)
    ensures Exact(c, TakeAbs(c))
  {}

  lemma PressLength(c: Input)
    ensures Exact(c, TakeButton(c)) && Exact(c, TakeKey(c)) && Exact(c, TakeGrab(c))
  {}

  lemma HeartbeatLength(c: Input)
    ensures Exact(c, TakePing(c)) && Exact(c, TakePong(c))
  {}

  /** Every reader of a body consumes as many bytes as writing what it read takes. */
  ghost predicate AlwaysExact(read: Input -> (Message, Input)) {
    forall c :: Exact(c, read(c))
  }

  lemma ReadersAreExact()
    ensures AlwaysExact(TakeHello) && AlwaysExact(TakeWelcome) && AlwaysExact(TakeMove) && AlwaysExact(TakeAbs)
    ensures AlwaysExact(TakeButton) && AlwaysExact(TakeWheel) && AlwaysExact(TakeKey) && AlwaysExact(TakePing)
    ensures AlwaysExact(TakePong) && AlwaysExact(TakeGrab) && AlwaysExact(TakeBye) && AlwaysExact(TakeMonitors)
    ensures AlwaysExact(TakeClipboard)
  {
    forall c { HelloLength(c); }
    forall c { TextLength(c); }
    forall c { DeltaLength(c); }
    forall c { AbsLength(c); }
    forall c { PressLength(c); }
    forall c { HeartbeatLength(c); }
    forall c { MonitorsLength(c); }
    forall c { ClipboardLength(c); }
  }

  /** Whatever the bytes, a body that is read consumes as many bytes as writing it takes. */
  lemma BodyLength(t: byte, c: Input)
    requires KnownTag(t)
    ensures Exact(c, TakeBody(t, c))
  {
    ReadersAreExact();
    assert AlwaysExact(BodyReader(t));
  }

  lemma BodyTag(t: byte, c: Input)
    requires KnownTag(t)
    ensures Tag(TakeBody(t, c).0) == t
  {}

  lemma AcceptedPayload(t: byte, body: seq<byte>, m: Message)
    requires ParsePayload(t, body) == Received(m)
    ensures Tag(m) == t && InRange(m) && |Body(m)| == |body|
  {
    BodyLength(t, Left(body));
    BodyTag(t, Left(body));
  }

  lemma AcceptedFrame(input: seq<byte>, m: Message, rest: seq<byte>)
    requires ReadFrame(input) == (Received(m), rest)
    ensures |input| >= 5
    ensures var n := FromLE(input[..4]);
      && 1 <= n <= FrameLimit(input[4]) && 4 + n <= |input| && rest == input[4 + n..]
      && ParsePayload(input[4], input[5..4 + n]) == Received(m)
  {
  }

  /** What an accepted frame at the front of input says about it. */
  predicate OneFrameConsumed(input: seq<byte>, m: Message, rest: seq<byte>) {
    && InRange(m) && Fits(m) && |input| >= 4
    && |Frame(m)| == 4 + FromLE(input[..4]) && |Frame(m)| <= |input|
    && rest == input[|Frame(m)|..]
  }

  lemma AcceptedConsumesOneFrame(input: seq<byte>, m: Message, rest: seq<byte>)
    requires ReadFrame(input) == (Received(m), rest)
    ensures OneFrameConsumed(input, m, rest)
  {
    AcceptedFrame(input, m, rest);
    AcceptedPayload(input[4], input[5..4 + FromLE(input[..4])], m);
  }

  lemma RewrittenReadsBack(m: Message)
    requires InRange(m) && Fits(m)
    ensures ReadFrame(Frame(m)) == (Received(m), [])
  {
    FrameRoundTrip(m, []);
    InRangeIsNormal(m);
    assert Frame(m) + [] == Frame(m);
  }

  /** The decoder on arbitrary bytes: whenever a message is accepted, exactly one frame
      has been consumed, the message is within the format's limits, and writing it
      again gives a frame of the same length that reads as the same message. */
  lemma AcceptedIsRewritable(input: seq<byte>, m: Message, rest: seq<byte>)
    requires ReadFrame(input) == (Received(m), rest)
    ensures OneFrameConsumed(input, m, rest) && ReadFrame(Frame(m)) == (Received(m), [])
  {
    AcceptedConsumesOneFrame(input, m, rest);
    RewrittenReadsBack(m);
  }

  /** Every proper prefix of a written frame is refused as too short. */
  lemma ProperPrefixRefused(m: Message, n: nat)
    requires Fits(m) && n < |Frame(m)|
    ensures ReadFrame(Frame(m)[..n]) == (Refused(ShortRead), [])
  {
    FrameHeader(m, []);
    var f, p := Frame(m), Frame(m)[..n];
    assert f + [] == f;
    if n >= 4 { assert p[..4] == f[..4]; }
    if n >= 5 { assert p[4] == f[4]; }
  }

  lemma InRangeReadsBack(m: Message, rest: seq<byte>)
    requires Fits(m) && InRange(m)
    ensures ReadFrame(Frame(m) + rest) == (Received(m), rest)
  {
    FrameRoundTrip(m, rest);
    InRangeIsNormal(m);
  }

  lemma OneReading<T>(read: seq<byte> -> (T, seq<byte>), f: seq<byte>, g: seq<byte>, rest: seq<byte>, a: T, b: T)
    requires f + rest == g && read(f + rest) == (a, rest) && read(g + []) == (b, [])
    ensures a == b
  {
    assert g + [] == g;
  }

  lemma RestOf(f: seq<byte>, g: seq<byte>) returns (rest: seq<byte>)
    requires f <= g
    ensures f + rest == g
  {
    rest := g[|f|..];
  }

  /** Frames of distinct in-range messages never prefix one another. */
  lemma FramesArePrefixFree(a: Message, b: Message)
    requires Fits(a) && Fits(b) && InRange(a) && InRange(b) && Frame(a) <= Frame(b)
    ensures a == b
  {
    var rest := RestOf(Frame(a), Frame(b));
    InRangeReadsBack(a, rest);
    InRangeReadsBack(b, []);
    OneReading(ReadFrame, Frame(a), Frame(b), rest, Received(a), Received(b));
  }

  // ---- Clipboard payloads ----

  predicate ValidClipboardPayload(format: byte, data: seq<byte>) {
    0 < |data| <= MAX_CLIPBOARD_DATA && format in {1, 2, 3}
  }

  function Zeros(n: nat): (z: seq<byte>)
    ensures |z| == n
  {
    seq(n, i => 0)
  }

  /** The metadata allowance is tight: every accepted payload fits its frame exactly
      for origins of at most 240 bytes. */
  lemma ClipboardAlwaysFitsIff(origin: seq<byte>, counter: uint64)
    ensures (forall format, data :: ValidClipboardPayload(format, data) ==>
               Fits(ClipboardUpdate(origin, counter, format, data)))
       <==> |origin| <= 240
  {
    if |origin| > 240 {
      var data := Zeros(MAX_CLIPBOARD_DATA);
      assert ValidClipboardPayload(1, data);
      assert !Fits(ClipboardUpdate(origin, counter, 1, data));
    }
  }
}
