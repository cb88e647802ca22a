/** The codec as the program runs it: an encoder that appends to a buffer, a decoder
    that advances a position and latches its first error, and framed reads and writes
    over byte streams. */
module CodecImpl {
  import opened Wire
  import opened CodecSpec

  class Encoder {
    var buf: seq<byte>

    constructor ()
      ensures buf == []
    {
      buf := [];
    }

    method U8(v: byte)
      modifies this
      ensures buf == old(buf) + [v]
    {
      buf := buf + [v];
    }

    method Bool(v: bool)
      modifies this
      ensures buf == old(buf) + BoolBytes(v)
    {
      if v { buf := buf + [1]; } else { buf := buf + [0]; }
    }

    method U16(v: uint16)
      modifies this
      ensures buf == old(buf) + Bytes2(v as int)
    {
      buf := buf + Bytes2(v as int);
    }

    method I16(v: int16)
      modifies this
      ensures buf == old(buf) + Bytes2(CodecSpec.U16(v) as int)
    {
      U16(CodecSpec.U16(v));
    }

    method U32(v: uint32)
      modifies this
      ensures buf == old(buf) + Bytes4(v as int)
    {
      buf := buf + Bytes4(v as int);
    }

    method I32(v: int32)
      modifies this
      ensures buf == old(buf) + Bytes4(CodecSpec.U32(v) as int)
    {
      U32(CodecSpec.U32(v));
    }

    method U64(v: uint64)
      modifies this
      ensures buf == old(buf) + Bytes8(v as int)
    {
      buf := buf + Bytes8(v as int);
    }

    method Data(v: seq<byte>)
      modifies this
      ensures buf == old(buf) + DataBytes(v)
    {
      U32((|v| % 0x1_0000_0000) as uint32);
      buf := buf + v;
    }

    method Str(s: seq<byte>)
      modifies this
      ensures buf == old(buf) + StrBytes(s)
    {
      var t := s;
      if |t| > MAX_STR { t := t[..MAX_STR]; }
      U16(|t| as uint16);
      buf := buf + t;
    }

    method Monitor(m: Wire.Monitor)
      modifies this
      ensures buf == old(buf) + MonitorBytes(m)
    {
      U8(m.id);
      I32(m.x);
      I32(m.y);
      U32(m.w);
      U32(m.h);
      Bool(m.primary);
      Str(m.name);
    }

    method MonitorList(all: seq<Wire.Monitor>)
      modifies this
      ensures buf == old(buf) + MonitorListBytes(all)
    {
      var ms := all;
      if |ms| > MAX_MONITORS { ms := ms[..MAX_MONITORS]; }
      U8(|ms| as byte);
      Monitors(ms);
    }

    method Monitors(ms: seq<Wire.Monitor>)
      modifies this
      ensures buf == old(buf) + ManyMonitorBytes(ms)
    {
      ghost var start := buf;
      var i := 0;
      while i < |ms|
        invariant 0 <= i <= |ms|
        invariant buf + ManyMonitorBytes(ms[i..]) == start + ManyMonitorBytes(ms)
      {
        WriteOneMore(buf, ms[i..]);
        assert ms[i..][1..] == ms[i + 1..];
        Monitor(ms[i]);
        i := i + 1;
      }
      assert buf + [] == buf;
    }

    method Hello(m: Message)
      requires m.Hello?
      modifies this
      ensures buf == old(buf) + Body(m)
    {
      U16(m.version);
      Str(m.clientName);
      MonitorList(m.monitors);
      Str(m.token);
    }

    method Clipboard(m: Message)
      requires m.ClipboardUpdate?
      modifies this
      ensures buf == old(buf) + Body(m)
    {
      Str(m.origin);
      U64(m.counter);
      U8(m.format);
      Data(m.data);
    }

    method Input(m: Message)
      requires m.MouseMove? || m.MouseAbs? || m.MouseButton? || m.MouseWheel? || m.KeyEvent?
      modifies this
      ensures buf == old(buf) + Body(m)
    {
      match m
      case MouseMove(dx, dy) => I16(dx); I16(dy);
      case MouseAbs(id, x, y) => U8(id); U16(x); U16(y);
      case MouseButton(b, down) => U8(b); Bool(down);
      case MouseWheel(dx, dy) => I16(dx); I16(dy);
      case KeyEvent(k, down) => U16(k); Bool(down);
    }

    method Encode(m: Message)
      modifies this
      ensures buf == old(buf) + Body(m)
    {
      match m
      case Hello(_, _, _, _) => Hello(m);
      case Welcome(name) => Str(name);
      case Ping(n) => U32(n);
      case Pong(n) => U32(n);
      case Grab(on) => Bool(on);
      case Bye(reason) => Str(reason);
      case MonitorsChanged(ms) => MonitorList(ms);
      case ClipboardUpdate(_, _, _, _) => Clipboard(m);
      case _ => Input(m);
    }
  }

  class Decoder {
    const buf: seq<byte>
    var pos: nat
    var err: bool

    constructor (buf: seq<byte>)
      ensures Valid() && this.buf == buf && Unread() == Left(buf)
    {
      this.buf := buf;
      pos, err := 0, false;
    }

    predicate Valid()
      reads this
    {
      pos <= |buf|
    }

    ghost function Unread(): CodecSpec.Input
      requires Valid()
      reads this
    {
      if err then Failed else Left(buf[pos..])
    }

    method Need(n: nat) returns (ok: bool)
      requires Valid()
      modifies this`err
      ensures Valid() && ok == (!old(err) && old(pos) + n <= |buf|) && err == !ok
    {
      if err { return false; }
      if pos + n > |buf| {
        err := true;
        return false;
      }
      ok := true;
    }

    method Bytes(n: nat) returns (bs: seq<byte>)
      requires Valid()
      modifies this
      ensures Valid() && (bs, Unread()) == TakeBytes(old(Unread()), n)
    {
      var ok := Need(n);
      if !ok { return []; }
      assert buf[pos..][..n] == buf[pos..pos + n] && buf[pos..][n..] == buf[pos + n..];
      bs := buf[pos..pos + n];
      pos := pos + n;
    }

    method Number(n: nat) returns (v: nat)
      requires Valid()
      modifies this
      ensures Valid() && (v, Unread()) == TakeNat(old(Unread()), n) && v < Pow256(n)
    {
      TakeNatBound(Unread(), n);
      var ok := Need(n);
      if !ok { return 0; }
      assert buf[pos..][..n] == buf[pos..pos + n] && buf[pos..][n..] == buf[pos + n..];
      v := FromLE(buf[pos..pos + n]);
      pos := pos + n;
    }

    method U8() returns (v: byte)
      requires Valid()
      modifies this
      ensures Valid() && (v, Unread()) == TakeU8(old(Unread()))
    {
      var ok := Need(1);
      if !ok { return 0; }
      v := buf[pos];
      pos := pos + 1;
    }

    method Bool() returns (v: bool)
      requires Valid()
      modifies this
      ensures Valid() && (v, Unread()) == TakeBool(old(Unread()))
    {
      var b := U8();
      v := b != 0;
    }

    method U16() returns (v: uint16)
      requires Valid()
      modifies this
      ensures Valid() && (v, Unread()) == TakeU16(old(Unread()))
    {
      var n := Number(2);
      Pow256Values();
      v := n as uint16;
    }

    method I16() returns (v: int16)
      requires Valid()
      modifies this
      ensures Valid() && (v, Unread()) == TakeI16(old(Unread()))
    {
      var u := U16();
      v := CodecSpec.I16(u);
    }

    method U32() returns (v: uint32)
      requires Valid()
      modifies this
      ensures Valid() && (v, Unread()) == TakeU32(old(Unread()))
    {
      var n := Number(4);
      Pow256Values();
      v := n as uint32;
    }

    method I32() returns (v: int32)
      requires Valid()
      modifies this
      ensures Valid() && (v, Unread()) == TakeI32(old(Unread()))
    {
      var u := U32();
      v := CodecSpec.I32(u);
    }

    method U64() returns (v: uint64)
      requires Valid()
      modifies this
      ensures Valid() && (v, Unread()) == TakeU64(old(Unread()))
    {
      var n := Number(8);
      Pow256Values();
      v := n as uint64;
    }

    method Data() returns (v: seq<byte>)
      requires Valid()
      modifies this
      ensures Valid() && (v, Unread()) == TakeData(old(Unread()))
    {
      var n := U32();
      if n as int > MAX_FRAME {
        err := true;
        return [];
      }
      v := Bytes(n as int);
    }

    method Str() returns (v: seq<byte>)
      requires Valid()
      modifies this
      ensures Valid() && (v, Unread()) == TakeStr(old(Unread()))
    {
      var n := U16();
      v := Bytes(n as int);
    }

    method Monitor() returns (m: Wire.Monitor)
      requires Valid()
      modifies this
      ensures Valid() && (m, Unread()) == TakeMonitor(old(Unread()))
    {
      var id := U8();
      var x := I32();
      var y := I32();
      var w := U32();
      var h := U32();
      var primary := Bool();
      var name := Str();
      m := Wire.Monitor(id, x, y, w, h, primary, name);
    }

    method MonitorList() returns (ms: seq<Wire.Monitor>)
      requires Valid()
      modifies this
      ensures Valid() && (ms, Unread()) == TakeMonitorList(old(Unread()))
    {
      var n := U8();
      if n as int > MAX_MONITORS {
        err := true;
        return [];
      }
      ms := Monitors(n as int);
    }

    /** One more monitor of a list of which left are still to be read. */
    method NextMonitor(ghost result: (seq<Wire.Monitor>, CodecSpec.Input), ms: seq<Wire.Monitor>, ghost left: nat)
      returns (more: seq<Wire.Monitor>)
      requires Valid() && left > 0 && Continues(TakeMonitor, result, ms, Unread(), left)
      modifies this
      ensures Valid()
      ensures if err then result == ([], Failed)
              else Continues(TakeMonitor, result, more, Unread(), left - 1)
    {
      ghost var before := Unread();
      var m := Monitor();
      ContinuesOne(TakeMonitor, result, ms, before, left, m, Unread());
      more := ms + [m];
    }

    method Monitors(n: nat) returns (ms: seq<Wire.Monitor>)
      requires Valid()
      modifies this
      ensures Valid() && (ms, Unread()) == TakeMany(TakeMonitor, old(Unread()), n)
    {
      ms := [];
      ghost var result := TakeMany(TakeMonitor, Unread(), n);
      ContinuesAtFirst(TakeMonitor, Unread(), n);
      var i := 0;
      ghost var left := n;
      while i < n
        invariant 0 <= i <= n && left == n - i && Valid()
        invariant Continues(TakeMonitor, result, ms, Unread(), left)
      {
        ms := NextMonitor(result, ms, left);
        if err { return []; }
        i, left := i + 1, left - 1;
      }
      ContinuesToEnd(TakeMonitor, result, ms, Unread());
    }

    method Hello() returns (m: Message)
      requires Valid()
      modifies this
      ensures Valid() && (m, Unread()) == TakeHello(old(Unread()))
    {
      var v := U16();
      var name := Str();
      var ms := MonitorList();
      var token := Str();
      m := Message.Hello(v, name, ms, token);
    }

    method Clipboard() returns (m: Message)
      requires Valid()
      modifies this
      ensures Valid() && (m, Unread()) == TakeClipboard(old(Unread()))
    {
      var origin := Str();
      var n := U64();
      var format := U8();
      var data := Data();
      m := ClipboardUpdate(origin, n, format, data);
    }

    method Input(t: byte) returns (m: Message)
      requires Valid() && 3 <= t <= 7
      modifies this
      ensures Valid() && (m, Unread()) == TakeBody(t, old(Unread()))
    {
      if t == 3 { var dx := I16(); var dy := I16(); m := MouseMove(dx, dy); }
      else if t == 4 { var id := U8(); var x := U16(); var y := U16(); m := MouseAbs(id, x, y); }
      else if t == 5 { var b := U8(); var down := Bool(); m := MouseButton(b, down); }
      else if t == 6 { var dx := I16(); var dy := I16(); m := MouseWheel(dx, dy); }
      else { var k := U16(); var down := Bool(); m := KeyEvent(k, down); }
    }

    /** Decodes a message of a known type; err tells whether that succeeded. */
    method Decode(t: byte) returns (m: Message)
      requires Valid() && KnownTag(t)
      modifies this
      ensures Valid() && (m, Unread()) == TakeBody(t, old(Unread()))
    {
      if t == 1 { m := Hello(); }
      else if t == 2 { var name := Str(); m := Welcome(name); }
      else if t <= 7 { m := Input(t); }
      else if t == 8 { var n := U32(); m := Ping(n); }
      else if t == 9 { var n := U32(); m := Pong(n); }
      else if t == 10 { var on := Bool(); m := Grab(on); }
      else if t == 11 { var reason := Str(); m := Bye(reason); }
      else if t == 12 { var ms := MonitorList(); m := MonitorsChanged(ms); }
      else { m := Clipboard(); }
    }
  }

  /** A list loop, part way: what is still to be read decides the outcome. */
  ghost predicate Continues<T(!new)>(
    take: CodecSpec.Input -> (T, CodecSpec.Input), result: (seq<T>, CodecSpec.Input),
    ms: seq<T>, now: CodecSpec.Input, left: nat)
  {
    var rest := TakeMany(take, now, left);
    result == if left > 0 && rest.1.Failed? then ([], Failed) else (ms + rest.0, rest.1)
  }

  lemma ContinuesAtFirst<T(!new)>(
    take: CodecSpec.Input -> (T, CodecSpec.Input), start: CodecSpec.Input, n: nat)
    ensures Continues(take, TakeMany(take, start, n), [], start, n)
  {
    var rest := TakeMany(take, start, n);
    assert [] + rest.0 == rest.0;
  }

  lemma ContinuesToEnd<T(!new)>(
    take: CodecSpec.Input -> (T, CodecSpec.Input), result: (seq<T>, CodecSpec.Input),
    ms: seq<T>, now: CodecSpec.Input)
    requires Continues(take, result, ms, now, 0)
    ensures result == (ms, now)
  {
    assert ms + [] == ms;
  }

  lemma ContinuesOne<T(!new)>(
    take: CodecSpec.Input -> (T, CodecSpec.Input), result: (seq<T>, CodecSpec.Input),
    ms: seq<T>, now: CodecSpec.Input, left: nat, m: T, next: CodecSpec.Input)
    requires left > 0 && Continues(take, result, ms, now, left) && take(now) == (m, next)
    requires take(Failed).1 == Failed
    ensures next.Left? ==> Continues(take, result, ms + [m], next, left - 1)
    ensures next.Failed? ==> result == ([], Failed)
  {
    if next.Failed? {
      FailedStaysFailed(take, left - 1);
    } else {
      var rest := TakeMany(take, next, left - 1);
      assert ms + ([m] + rest.0) == ms + [m] + rest.0;
    }
  }

  lemma WriteOneMore(buf: seq<byte>, ms: seq<Wire.Monitor>)
    requires ms != []
    ensures buf + ManyMonitorBytes(ms) == buf + MonitorBytes(ms[0]) + ManyMonitorBytes(ms[1..])
  {
  }

  /** The outgoing half of a connection. A write may fail part way. */
  class Writer {
    var written: seq<byte>

    constructor ()
      ensures written == []
    {
      written := [];
    }

    method Put(bs: seq<byte>) returns (ok: bool)
      modifies this
      ensures old(written) <= written <= old(written) + bs
      ensures ok ==> written == old(written) + bs
    {
      var n :| 0 <= n <= |bs|;
      var broken: bool := *;
      written := written + bs[..n];
      ok := n == |bs| && !broken;
    }
  }

  /** The incoming half: bytes that have arrived and not been read. */
  class Reader {
    var rest: seq<byte>

    constructor (rest: seq<byte>)
      ensures this.rest == rest
    {
      this.rest := rest;
    }

    /** All n bytes or an error; a short stream is drained. */
    method ReadFull(n: nat) returns (ok: bool, bs: seq<byte>)
      modifies this
      ensures ok == (|old(rest)| >= n)
      ensures if ok then bs == old(rest)[..n] && rest == old(rest)[n..] else rest == []
    {
      ok := |rest| >= n;
      if ok {
        bs := rest[..n];
        rest := rest[n..];
      } else {
        bs, rest := rest, [];
      }
    }
  }

  method BuildPayload(m: Message) returns (payload: seq<byte>)
    ensures payload == Payload(m)
  {
    var e := new Encoder();
    e.U8(Tag(m));
    assert e.buf == [Tag(m)];
    e.Encode(m);
    payload := e.buf;
  }

  method PutFrame(w: Writer, payload: seq<byte>) returns (ok: bool)
    modifies w
    ensures old(w.written) <= w.written <= old(w.written) + (Bytes4(|payload|) + payload)
    ensures ok ==> w.written == old(w.written) + (Bytes4(|payload|) + payload)
  {
    ok := w.Put(Bytes4(|payload|));
    if !ok { return; }
    ok := w.Put(payload);
  }

  datatype WriteResult = Sent | TooLarge | WriteFailed

  /** Sends one framed message; nothing at all when it exceeds its type's limit, and some
      beginning of it when the connection fails. */
  method Write(w: Writer, m: Message) returns (res: WriteResult)
    modifies w
    ensures res.TooLarge? <==> !Fits(m)
    ensures res.TooLarge? ==> w.written == old(w.written)
    ensures res.Sent? ==> w.written == old(w.written) + Frame(m)
    ensures res.WriteFailed? ==> old(w.written) <= w.written <= old(w.written) + Frame(m)
  {
    var payload := BuildPayload(m);
    if |payload| > FrameLimit(Tag(m)) { return TooLarge; }
    var ok := PutFrame(w, payload);
    res := if ok then Sent else WriteFailed;
  }

  /** Reads one framed message from any byte stream. */
  method Read(r: Reader) returns (res: ReadResult)
    modifies r
    ensures (res, r.rest) == ReadFrame(old(r.rest))
  {
    ghost var input := r.rest;
    var ok, hdr := r.ReadFull(4);
    if !ok { return Refused(ShortRead); }
    var length := FromLE(hdr);
    if length == 0 { return Refused(EmptyFrame); }
    if length > MAX_FRAME { return Refused(FrameTooLarge); }
    var typ;
    ok, typ := r.ReadFull(1);
    if !ok { return Refused(ShortRead); }
    var t := typ[0];
    if length > FrameLimit(t) { return Refused(FrameTooLarge); }
    var body;
    ok, body := r.ReadFull(length - 1);
    if !ok { return Refused(ShortRead); }
    assert body == input[5..4 + length] && r.rest == input[4 + length..];
    res := Parse(t, body);
  }

  method Parse(t: byte, body: seq<byte>) returns (res: ReadResult)
    ensures res == ParsePayload(t, body)
  {
    if !KnownTag(t) { return Refused(UnknownType); }
    var d := new Decoder(body);
    var m := d.Decode(t);
    if d.err { return Refused(Malformed); }
    if d.pos != |d.buf| { return Refused(TrailingBytes); }
    res := Received(m);
  }
}
