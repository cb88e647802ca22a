/** The router as a state machine. Every entry point of the router runs under one
    mutex, so each is one atomic step here. The two places where the program's
    outcome depends on hash-map iteration order (which client is found, in which
    order held inputs are released) are resolved by an explicit Choice, and Legal
    says which choices an iteration may make. */
module RouterModel {
  import opened Wire
  import opened Geometry

  type ConnId = string
  type Name = seq<byte>

  const SETTLE_PX := 100

  datatype Placement = Placement(x: int, y: int)

  /** A registered client; sent is everything the router ever put on its session. */
  datatype Client = Client(
    name: Name, monitors: seq<Monitor>, offX: int, offY: int, sent: seq<Message>)
  {
    function Rects(): (qs: seq<Rect>)
      ensures |qs| == |monitors|
    {
      Screens(monitors, offX, offY)
    }

    predicate Covers(px: int, py: int) { OnAny(Rects(), px, py) }
  }

  /** The host operating system as the router leaves it: whether captured input is
      swallowed, whether the pointer shows, where the router last warped the
      pointer, and which inputs the host believes are pressed. */
  datatype Host = Host(
    consume: bool, visible: bool, warp: (int, int), btns: set<byte>, keys: set<uint16>)

  /** Before the capture loop, in it, and after it: cancelled, or ended by the capture
      channel closing under it. */
  datatype Phase = Idle | Running | Stopped | Lost

  datatype State = State(
    serverMons: seq<Monitor>, box: Rect, trap: (int, int),
    clients: map<ConnId, Client>, placements: map<Name, Placement>,
    v: (int, int), haveLast: bool, last: (int, int),
    heldBtns: set<byte>, btnsOn: set<byte>, heldKeys: set<uint16>, keysOn: set<uint16>,
    syncing: bool, active: Option<ConnId>, phase: Phase, host: Host)
  {
    function ServerRects(): seq<Rect> { Screens(serverMons, 0, 0) }

    predicate ActiveKnown() { active.Some? ==> active.value in clients }
  }

  datatype Event =
    | Start
    | Stop
    | CaptureLost
    | Register(id: ConnId, name: Name, monitors: seq<Monitor>)
    | Unregister(id: ConnId)
    | ClientMonitors(id: ConnId, monitors: seq<Monitor>)
    | ServerMonitors(monitors: seq<Monitor>)
    | Place(name: Name, x: int, y: int)
    | Move(x: int, y: int)
    | Button(button: byte, down: bool)
    | Wheel(dx: int16, dy: int16)
    | Key(code: uint16, down: bool)

  /** What map iteration decided during one step. ray: depth of the nearest client
      edge found by the raycast; target: the client found under the cursor;
      btns, keys: the order in which forwarded inputs were released. */
  datatype Choice = Choice(
    ray: Option<int>, target: Option<ConnId>, btns: seq<byte>, keys: seq<uint16>)

  predicate Enumerates<T(==)>(order: seq<T>, s: set<T>) {
    && (forall i :: 0 <= i < |order| ==> order[i] in s)
    && (forall x :: x in s ==> x in order)
    && (forall i, j :: 0 <= i < j < |order| ==> order[i] != order[j])
  }

  // ---- Messages ----

  function FirstHit(qs: seq<Rect>, x: int, y: int, k: nat): (i: nat)
    requires k <= |qs|
    ensures k <= i <= |qs|
    ensures i < |qs| ==> Inside(qs[i], x, y)
    ensures forall j :: k <= j < i ==> !Inside(qs[j], x, y)
    decreases |qs| - k
  {
    if k == |qs| then k else if Inside(qs[k], x, y) then k else FirstHit(qs, x, y, k + 1)
  }

  /** The position message for the cursor at v: the first monitor under it, with
      monitor-local coordinates cut to 16 bits. Nothing when no monitor is under it. */
  function AbsMessages(c: Client, v: (int, int)): (ms: seq<Message>) {
    var i := FirstHit(c.Rects(), v.0, v.1, 0);
    if i == |c.monitors| then []
    else
      var q := c.Rects()[i];
      [MouseAbs(c.monitors[i].id,
                ((v.0 - q.l) % 0x1_0000) as uint16, ((v.1 - q.t) % 0x1_0000) as uint16)]
  }

  function ButtonUps(bs: seq<byte>): (ms: seq<Message>)
    ensures |ms| == |bs|
  {
    seq(|bs|, i requires 0 <= i < |bs| => MouseButton(bs[i], false))
  }

  function KeyUps(ks: seq<uint16>): (ms: seq<Message>)
    ensures |ms| == |ks|
  {
    seq(|ks|, i requires 0 <= i < |ks| => KeyEvent(ks[i], false))
  }

  function Releases(ch: Choice): seq<Message> { ButtonUps(ch.btns) + KeyUps(ch.keys) }

  function Deliver(s: State, id: ConnId, ms: seq<Message>): State
    requires id in s.clients
  {
    s.(clients := s.clients[id := s.clients[id].(sent := s.clients[id].sent + ms)])
  }

  // ---- Grab transitions ----

  function OpenGrab(s: State, id: ConnId): State
    requires id in s.clients
  {
    Deliver(s, id, [Grab(true)] + AbsMessages(s.clients[id], s.v)).(
      btnsOn := {}, keysOn := {}, active := Some(id),
      host := s.host.(btns := s.host.btns - s.heldBtns, keys := s.host.keys - s.heldKeys,
                      consume := true, visible := false))
  }

  function ParkPoint(s: State): (int, int) {
    var p := ClampToServer(s.serverMons, s.v.0, s.v.1);
    (Pad(p.0, s.box.l, s.box.r), Pad(p.1, s.box.t, s.box.b))
  }

  function CloseGrab(s: State, ch: Choice): State
    requires s.active.Some? && s.ActiveKnown()
  {
    var p := ParkPoint(s);
    Deliver(s, s.active.value, Releases(ch) + [Grab(false)]).(
      btnsOn := {}, keysOn := {}, active := None, syncing := false, v := p, last := p,
      host := s.host.(consume := false, visible := true, warp := p))
  }

  function SwitchGrab(s: State, id: ConnId, ch: Choice): State
    requires s.active.Some? && s.ActiveKnown() && id in s.clients
  {
    var t := Deliver(s, s.active.value, Releases(ch) + [Grab(false)]);
    Deliver(t, id, [Grab(true)] + AbsMessages(s.clients[id], s.v)).(
      btnsOn := {}, keysOn := {}, active := Some(id))
  }

  /** What the region under the cursor does to the grab. */
  function Resolve(s: State, ch: Choice): State
    requires s.ActiveKnown()
    requires ch.target.Some? ==> ch.target.value in s.clients
  {
    match (ch.target, s.active)
    case (Some(id), None) => OpenGrab(s, id)
    case (None, Some(_)) => CloseGrab(s, ch)
    case (Some(id), Some(a)) =>
      if id != a then SwitchGrab(s, id, ch)
      else Deliver(s, id, AbsMessages(s.clients[id], s.v))
    case (None, None) => s
  }

  /** A lookup of the client under the cursor may return any client covering it,
      and nothing only when none does. */
  predicate LegalTarget(s: State, t: Option<ConnId>) {
    match t
    case Some(id) => id in s.clients && s.clients[id].Covers(s.v.0, s.v.1)
    case None => forall id :: id in s.clients ==> !s.clients[id].Covers(s.v.0, s.v.1)
  }

  predicate LegalResolve(s: State, ch: Choice) {
    LegalTarget(s, ch.target) && Enumerates(ch.btns, s.btnsOn) && Enumerates(ch.keys, s.keysOn)
  }

  // ---- Pointer motion ----

  predicate Pushes(s: State, d: Dir, x: int, y: int) {
    && AtEdge(s.ServerRects(), d, x, y)
    && s.haveLast && AtEdge(s.ServerRects(), d, s.last.0, s.last.1)
  }

  function PushDir(s: State, x: int, y: int): Option<Dir> {
    if Pushes(s, ToRight, x, y) then Some(ToRight)
    else if Pushes(s, ToLeft, x, y) then Some(ToLeft)
    else if Pushes(s, ToBottom, x, y) then Some(ToBottom)
    else if Pushes(s, ToTop, x, y) then Some(ToTop)
    else None
  }

  /** A client monitor lying wholly beyond the box in direction d and across the
      ray, with k pixels between the box and its near edge. */
  predicate RayHits(c: Client, box: Rect, d: Dir, perp: int, k: int) {
    exists i :: 0 <= i < |c.monitors| && Depth(box, d, c.Rects()[i]) == k && k >= 0
      && Spans(d, c.Rects()[i], perp)
  }

  ghost predicate LegalRay(s: State, d: Dir, perp: int, ray: Option<int>) {
    match ray
    case None => forall id, k :: id in s.clients ==> !RayHits(s.clients[id], s.box, d, perp, k)
    case Some(k) =>
      && (exists id :: id in s.clients && RayHits(s.clients[id], s.box, d, perp, k))
      && forall id, j :: id in s.clients && RayHits(s.clients[id], s.box, d, perp, j) ==> k <= j
  }

  function RayDepth(ray: Option<int>): int { if ray.Some? then ray.value else 0 }

  /** The cursor just past the near edge the ray hit, or past the box when it hit nothing. */
  function Projected(s: State, d: Dir, x: int, y: int, ray: Option<int>): (int, int) {
    RayPixel(s.box, d, Across(d, x, y), RayDepth(ray) + HYSTERESIS)
  }

  predicate NearTrap(s: State, x: int, y: int) {
    -SETTLE_PX <= x - s.trap.0 <= SETTLE_PX && -SETTLE_PX <= y - s.trap.1 <= SETTLE_PX
  }

  /** A motion event that moves a grabbed cursor. */
  predicate Drives(s: State, x: int, y: int) {
    s.active.Some? && !s.syncing && (x, y) != s.trap
  }

  predicate PushesOut(s: State, x: int, y: int) {
    s.active.None? && PushDir(s, x, y).Some?
  }

  /** The raw cursor: virtual position plus the motion away from the trap. */
  function Raw(s: State, x: int, y: int): (int, int) {
    (s.v.0 + x - s.trap.0, s.v.1 + y - s.trap.1)
  }

  /** The state in which the region under the cursor is looked up. */
  function Aimed(s: State, x: int, y: int, ch: Choice): State
    requires s.ActiveKnown()
  {
    if PushesOut(s, x, y) then
      s.(v := Projected(s, PushDir(s, x, y).value, x, y, ch.ray))
    else if Drives(s, x, y) then
      var raw := Raw(s, x, y);
      var cs := s.clients[s.active.value].Rects();
      s.(v := Confine(cs, s.ServerRects(), raw.0, raw.1),
         last := s.trap, host := s.host.(warp := s.trap))
    else s
  }

  /** A push that opened a grab traps the pointer; one that missed is remembered. */
  function AfterPush(t: State, x: int, y: int): State {
    if t.active.Some?
    then t.(last := t.trap, syncing := true, host := t.host.(warp := t.trap))
    else t.(last := (x, y), haveLast := true)
  }

  function MoveStep(s: State, x: int, y: int, ch: Choice): State
    requires s.ActiveKnown()
    requires ch.target.Some? ==> ch.target.value in s.clients
  {
    if PushesOut(s, x, y) then AfterPush(Resolve(Aimed(s, x, y, ch), ch), x, y)
    else if Drives(s, x, y) then Resolve(Aimed(s, x, y, ch), ch)
    else if s.active.None? then s.(v := (x, y), last := (x, y), haveLast := true)
    else if s.syncing && NearTrap(s, x, y) then s.(syncing := false)
    else s
  }

  ghost predicate LegalMove(s: State, x: int, y: int, ch: Choice)
    requires s.ActiveKnown()
  {
    && (PushesOut(s, x, y) ==>
         var d := PushDir(s, x, y).value; LegalRay(s, d, Across(d, x, y), ch.ray))
    && (PushesOut(s, x, y) || Drives(s, x, y) ==> LegalResolve(Aimed(s, x, y, ch), ch))
    && (ch.target.Some? ==> ch.target.value in s.clients)
  }

  // ---- Buttons, wheel, keys ----

  function Toggle<T>(s: set<T>, x: T, on: bool): set<T> {
    if on then s + {x} else s - {x}
  }

  function ButtonStep(s: State, b: byte, down: bool): State
    requires s.ActiveKnown()
  {
    var t := s.(heldBtns := Toggle(s.heldBtns, b, down),
                host := if s.host.consume then s.host
                        else s.host.(btns := Toggle(s.host.btns, b, down)));
    if s.active.Some? && (down || b in s.btnsOn)
    then Deliver(t, s.active.value, [MouseButton(b, down)]).(btnsOn := Toggle(s.btnsOn, b, down))
    else t
  }

  function WheelStep(s: State, dx: int16, dy: int16): State
    requires s.ActiveKnown()
  {
    if s.active.Some? then Deliver(s, s.active.value, [MouseWheel(dx, dy)]) else s
  }

  function KeyStep(s: State, k: uint16, down: bool): State
    requires s.ActiveKnown()
  {
    var t := s.(heldKeys := Toggle(s.heldKeys, k, down),
                host := if s.host.consume then s.host
                        else s.host.(keys := Toggle(s.host.keys, k, down)));
    if s.active.Some? && (down || k in s.keysOn)
    then Deliver(t, s.active.value, [KeyEvent(k, down)]).(keysOn := Toggle(s.keysOn, k, down))
    else t
  }

  // ---- Registration, layout and placement ----

  /** A client's monitors translated so that their top-left corner is at p. */
  function Placed(c: Client, ms: seq<Monitor>, p: Placement): Client {
    var own := Bounds(Screens(ms, 0, 0));
    c.(monitors := ms, offX := p.x - own.l, offY := p.y - own.t)
  }

  /** Largest of base and the left edges of every stored placement. */
  predicate IsRightmost(base: int, ps: map<Name, Placement>, x: int) {
    && x >= base && (forall n :: n in ps ==> ps[n].x <= x)
    && (x == base || exists n :: n in ps && ps[n].x == x)
  }

  ghost function Rightmost(base: int, ps: map<Name, Placement>): (x: int)
    ensures IsRightmost(base, ps, x)
  {
    RightmostExists(base, ps);
    var x :| IsRightmost(base, ps, x);
    x
  }

  lemma {:induction false} RightmostExists(base: int, ps: map<Name, Placement>)
    ensures exists x :: IsRightmost(base, ps, x)
    decreases |ps|
  {
    if ps == map[] {
      assert IsRightmost(base, ps, base);
    } else {
      var n :| n in ps;
      var rest := ps - {n};
      RightmostExists(base, rest);
      var x :| IsRightmost(base, rest, x);
      var y := if ps[n].x > x then ps[n].x else x;
      assert forall k :: k in ps ==> k == n || k in rest;
      assert IsRightmost(base, ps, y);
    }
  }

  ghost function PlacementFor(s: State, name: Name): Placement {
    if name in s.placements then s.placements[name]
    else Placement(Rightmost(s.box.r, s.placements), s.box.t)
  }

  ghost function RegisterStep(s: State, id: ConnId, name: Name, ms: seq<Monitor>): State {
    var p := PlacementFor(s, name);
    s.(placements := s.placements[name := p],
       clients := s.clients[id := Placed(Client(name, [], 0, 0, []), ms, p)])
  }

  function Leave(s: State): State {
    var p := ClampToServer(s.serverMons, s.v.0, s.v.1);
    s.(btnsOn := {}, keysOn := {}, active := None, syncing := false, v := p, last := p,
       host := s.host.(consume := if s.phase.Idle? then s.host.consume else false,
                       visible := true, warp := p))
  }

  function UnregisterStep(s: State, id: ConnId): State {
    if id !in s.clients then s
    else (if s.active == Some(id) then Leave(s) else s).(clients := s.clients - {id})
  }

  function ClientMonitorsStep(s: State, id: ConnId, ms: seq<Monitor>): State {
    if id !in s.clients then s
    else
      var c := s.clients[id];
      var p := if c.name in s.placements then s.placements[c.name] else Placement(0, 0);
      s.(clients := s.clients[id := Placed(c, ms, p)])
  }

  function ServerMonitorsStep(s: State, ms: seq<Monitor>): State {
    s.(serverMons := ms, box := Bounds(Screens(ms, 0, 0)), trap := TrapOf(ms))
  }

  function MovedIfNamed(c: Client, name: Name, p: Placement): Client {
    if c.name == name then Placed(c, c.monitors, p) else c
  }

  function PlaceStep(s: State, name: Name, p: Placement): State {
    s.(placements := s.placements[name := p],
       clients := map id | id in s.clients :: MovedIfNamed(s.clients[id], name, p))
  }

  // ---- The transition system ----

  function Initial(ms: seq<Monitor>, seeds: map<Name, Placement>): State {
    State(ms, Bounds(Screens(ms, 0, 0)), TrapOf(ms), map[], seeds,
          (0, 0), false, (0, 0), {}, {}, {}, {}, false, None, Idle,
          Host(false, true, (0, 0), {}, {}))
  }

  /** Input is handled only while the capture loop runs, connection ids are never
      reused while registered, and the choice is one map iteration could make. */
  ghost predicate Legal(s: State, e: Event, ch: Choice) {
    && s.ActiveKnown()
    && (match e
        case Start => s.phase.Idle?
        case Stop => s.phase.Running?
        case CaptureLost => s.phase.Running?
        case Register(id, _, _) => id !in s.clients
        case Move(x, y) => s.phase.Running? && LegalMove(s, x, y, ch)
        case Button(_, _) => s.phase.Running?
        case Wheel(_, _) => s.phase.Running?
        case Key(_, _) => s.phase.Running?
        case _ => true)
  }

  ghost function Step(s: State, e: Event, ch: Choice): State
    requires Legal(s, e, ch)
  {
    match e
    case Start => s.(v := s.trap, phase := Running)
    case Stop => s.(phase := Stopped, host := s.host.(consume := false, visible := true))
    case CaptureLost => s.(phase := Lost)
    case Register(id, name, ms) => RegisterStep(s, id, name, ms)
    case Unregister(id) => UnregisterStep(s, id)
    case ClientMonitors(id, ms) => ClientMonitorsStep(s, id, ms)
    case ServerMonitors(ms) => ServerMonitorsStep(s, ms)
    case Place(name, x, y) => PlaceStep(s, name, Placement(x, y))
    case Move(x, y) => MoveStep(s, x, y, ch)
    case Button(b, down) => ButtonStep(s, b, down)
    case Wheel(dx, dy) => WheelStep(s, dx, dy)
    case Key(k, down) => KeyStep(s, k, down)
  }

  /** A finite run: states[i] is where event i starts, and the last state is where
      the run is now. */
  datatype Run = Run(states: seq<State>, events: seq<Event>, choices: seq<Choice>)
  {
    predicate Aligned() { |states| == |events| + 1 == |choices| + 1 }

    ghost predicate StepsAt(i: nat)
      requires Aligned() && i < |events|
    {
      Legal(states[i], events[i], choices[i])
      && states[i + 1] == Step(states[i], events[i], choices[i])
    }

    ghost predicate Starts()
      requires Aligned()
    {
      exists ms, seeds :: states[0] == Initial(ms, seeds)
    }

    ghost predicate Valid() {
      Aligned() && Starts() && forall i :: 0 <= i < |events| ==> StepsAt(i)
    }
  }

  /** Step i of a run, opened up. */
  lemma RunStep(r: Run, i: nat)
    requires r.Valid() && i < |r.events|
    ensures Legal(r.states[i], r.events[i], r.choices[i])
    ensures r.states[i + 1] == Step(r.states[i], r.events[i], r.choices[i])
  {
    assert r.StepsAt(i);
  }
}
