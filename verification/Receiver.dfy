/** The client's side: how the messages of a session drive the client's own mouse
    and keyboard, and what is released when a grab or a session ends. */
module Receiver {
  import opened Wire
  import opened RouterModel

  /** Inputs the operating system refused to inject while one message was handled. */
  datatype Faults = Faults(btns: set<byte>, keys: set<uint16>)

  const NO_FAULTS := Faults({}, {})

  /** btns, keys: DOWNs the client remembers having injected. downBtns, downKeys:
      what the client's operating system holds pressed. pointer: where the last
      absolute position put the pointer. turns, slides: the wheel turns and relative
      motions injected so far. */
  datatype Desk = Desk(
    btns: set<byte>, keys: set<uint16>,
    downBtns: set<byte>, downKeys: set<uint16>, pointer: Option<(int32, int32)>,
    turns: seq<(int16, int16)>, slides: seq<(int16, int16)>)

  const FRESH_DESK := Desk({}, {}, {}, {}, None, [], [])

  /** Two's-complement addition of 32-bit integers. */
  function AddWrap32(a: int32, b: uint16): int32 {
    var s := a as int + b as int;
    if s < 0x8000_0000 then s as int32 else (s - 0x1_0000_0000) as int32
  }

  /** The desktop pixel a position message names: the origin of the first monitor
      with its id plus the local coordinates; nothing for an unknown id. */
  function ResolveAbs(ms: seq<Monitor>, id: byte, x: uint16, y: uint16): Option<(int32, int32)> {
    if |ms| == 0 then None
    else if ms[0].id == id then Some((AddWrap32(ms[0].x, x), AddWrap32(ms[0].y, y)))
    else ResolveAbs(ms[1..], id, x, y)
  }

  /** Release everything remembered, then forget it, whether or not that worked. */
  function ReleaseAll(d: Desk, f: Faults): Desk {
    d.(btns := {}, keys := {},
       downBtns := d.downBtns - (d.btns - f.btns), downKeys := d.downKeys - (d.keys - f.keys))
  }

  /** One message applied to the desk. Messages that carry no input change nothing. */
  function Dispatch(d: Desk, ms: seq<Monitor>, m: Message, f: Faults): Desk {
    match m
    case Grab(on) => if on then d else ReleaseAll(d, f)
    case MouseAbs(id, x, y) =>
      var p := ResolveAbs(ms, id, x, y);
      if p.Some? then d.(pointer := p) else d
    case MouseButton(b, down) =>
      if b in f.btns then d
      else d.(btns := Toggle(d.btns, b, down), downBtns := Toggle(d.downBtns, b, down))
    case KeyEvent(k, down) =>
      if k in f.keys then d
      else d.(keys := Toggle(d.keys, k, down), downKeys := Toggle(d.downKeys, k, down))
    case MouseWheel(dx, dy) => d.(turns := d.turns + [(dx, dy)])
    case MouseMove(dx, dy) => d.(slides := d.slides + [(dx, dy)])
    case _ => d
  }

  /** The client's operating system as far as injected input goes. Its fields are
      ghost: the program can only ask for an injection and see whether it worked. */
  class Injector {
    ghost var downBtns: set<byte>
    ghost var downKeys: set<uint16>
    ghost var pointer: Option<(int32, int32)>
    ghost var turns: seq<(int16, int16)>
    ghost var slides: seq<(int16, int16)>

    constructor ()
      ensures downBtns == {} && downKeys == {} && pointer == None && turns == [] && slides == []
    {
      downBtns, downKeys, pointer, turns, slides := {}, {}, None, [], [];
    }

    method MouseButton(b: byte, down: bool) returns (ok: bool)
      modifies this`downBtns
      ensures downBtns == if ok then Toggle(old(downBtns), b, down) else old(downBtns)
    {
      ok := *;
      if ok { downBtns := Toggle(downBtns, b, down); }
    }

    method KeyEvent(k: uint16, down: bool) returns (ok: bool)
      modifies this`downKeys
      ensures downKeys == if ok then Toggle(old(downKeys), k, down) else old(downKeys)
    {
      ok := *;
      if ok { downKeys := Toggle(downKeys, k, down); }
    }

    method MouseMoveAbs(x: int32, y: int32)
      modifies this`pointer
      ensures pointer == Some((x, y))
    {
      pointer := Some((x, y));
    }

    method MouseWheel(dx: int16, dy: int16)
      modifies this`turns
      ensures turns == old(turns) + [(dx, dy)]
    {
      turns := turns + [(dx, dy)];
    }

    method MouseMoveRel(dx: int16, dy: int16)
      modifies this`slides
      ensures slides == old(slides) + [(dx, dy)]
    {
      slides := slides + [(dx, dy)];
    }
  }

  method FindPixel(ms: seq<Monitor>, id: byte, x: uint16, y: uint16) returns (p: Option<(int32, int32)>)
    ensures p == ResolveAbs(ms, id, x, y)
  {
    var i := 0;
    while i < |ms|
      invariant 0 <= i <= |ms|
      invariant ResolveAbs(ms, id, x, y) == ResolveAbs(ms[i..], id, x, y)
    {
      if ms[i].id == id {
        return Some((AddWrap32(ms[i].x, x), AddWrap32(ms[i].y, y)));
      }
      assert ms[i..][1..] == ms[i + 1..];
      i := i + 1;
    }
    p := None;
  }

  /** The DOWN events applied to the local system and not yet released. */
  class InjectedState {
    var btns: set<byte>
    var keys: set<uint16>

    constructor ()
      ensures btns == {} && keys == {}
    {
      btns, keys := {}, {};
    }

    ghost function On(os: Injector): Desk
      reads this, os
    {
      Desk(btns, keys, os.downBtns, os.downKeys, os.pointer, os.turns, os.slides)
    }

    method NoteButton(b: byte, down: bool)
      modifies this`btns
      ensures btns == Toggle(old(btns), b, down)
    {
      if down { btns := btns + {b}; } else { btns := btns - {b}; }
    }

    method NoteKey(k: uint16, down: bool)
      modifies this`keys
      ensures keys == Toggle(old(keys), k, down)
    {
      if down { keys := keys + {k}; } else { keys := keys - {k}; }
    }

    method ReleaseButtons(os: Injector, held: set<byte>) returns (ghost failed: set<byte>)
      modifies os`downBtns
      ensures failed <= held && os.downBtns == old(os.downBtns) - (held - failed)
    {
      failed := {};
      var todo := held;
      while todo != {}
        invariant todo <= held && failed <= held - todo
        invariant os.downBtns == old(os.downBtns) - (held - todo - failed)
        decreases todo
      {
        var b :| b in todo;
        var ok := os.MouseButton(b, false);
        if !ok { failed := failed + {b}; }
        todo := todo - {b};
      }
    }

    method ReleaseKeys(os: Injector, held: set<uint16>) returns (ghost failed: set<uint16>)
      modifies os`downKeys
      ensures failed <= held && os.downKeys == old(os.downKeys) - (held - failed)
    {
      failed := {};
      var todo := held;
      while todo != {}
        invariant todo <= held && failed <= held - todo
        invariant os.downKeys == old(os.downKeys) - (held - todo - failed)
        decreases todo
      {
        var k :| k in todo;
        var ok := os.KeyEvent(k, false);
        if !ok { failed := failed + {k}; }
        todo := todo - {k};
      }
    }

    method ReleaseEverything(os: Injector) returns (ghost f: Faults)
      modifies this, os
      ensures On(os) == ReleaseAll(old(On(os)), f)
    {
      var bs, ks := btns, keys;
      btns, keys := {}, {};
      ghost var fb := ReleaseButtons(os, bs);
      ghost var fk := ReleaseKeys(os, ks);
      f := Faults(fb, fk);
    }

    /** Applies one received message; f tells which injections were refused. */
    method DispatchIncoming(m: Message, os: Injector, ms: seq<Monitor>) returns (ghost f: Faults)
      modifies this, os
      ensures On(os) == Dispatch(old(On(os)), ms, m, f)
    {
      f := NO_FAULTS;
      match m
      case Grab(on) =>
        if !on { f := ReleaseEverything(os); }
      case MouseAbs(id, x, y) =>
        var p := FindPixel(ms, id, x, y);
        if p.Some? { os.MouseMoveAbs(p.value.0, p.value.1); }
      case MouseButton(b, down) =>
        var ok := os.MouseButton(b, down);
        if ok { NoteButton(b, down); } else { f := Faults({b}, {}); }
      case KeyEvent(k, down) =>
        var ok := os.KeyEvent(k, down);
        if ok { NoteKey(k, down); } else { f := Faults({}, {k}); }
      case MouseWheel(dx, dy) => os.MouseWheel(dx, dy);
      case MouseMove(dx, dy) => os.MouseMoveRel(dx, dy);
      case _ =>
    }
  }

  /** A log applied message by message; fs[i] are the refusals during message i. */
  function Replay(d: Desk, ms: seq<Monitor>, log: seq<Message>, fs: seq<Faults>): Desk
    requires |fs| == |log|
  {
    if |log| == 0 then d
    else
      var n := |log| - 1;
      Dispatch(Replay(d, ms, log[..n], fs[..n]), ms, log[n], fs[n])
  }

  function Faultless(n: nat): (fs: seq<Faults>)
    ensures |fs| == n && forall i :: 0 <= i < n ==> fs[i] == NO_FAULTS
  {
    seq(n, i => NO_FAULTS)
  }
}

