/** Machine arithmetic over whole runs: as long as monitors, placements and pointer samples
    stay in reach, so does everything the router ever computes from them. */
module ReachLaws {
  import opened Wire
  import opened Geometry
  import opened RouterModel
  import opened Scanning
  import opened RouterImpl
  import opened RunLaws

  // ---- Rectangles and points in reach ----

  predicate RectNear(q: Rect, bound: int) {
    PointNear((q.l, q.t), bound) && PointNear((q.r, q.b), bound)
  }

  predicate AllNear(qs: seq<Rect>, bound: int) {
    forall i :: 0 <= i < |qs| ==> RectNear(qs[i], bound)
  }

  lemma OnAnyNear(qs: seq<Rect>, bound: int, x: int, y: int)
    requires AllNear(qs, bound) && OnAny(qs, x, y)
    ensures PointNear((x, y), bound)
  {
    var i :| 0 <= i < |qs| && Inside(qs[i], x, y);
    assert RectNear(qs[i], bound);
  }

  lemma {:induction false} WallPointNear(qs: seq<Rect>, bound: int, x: int, y: int)
    requires AllNear(qs, bound) && bound >= 0
    ensures PointNear(WallPoint(qs, x, y), bound + 1)
  {
    if |qs| > 0 {
      WallPointNear(qs[..|qs| - 1], bound, x, y);
    }
  }

  lemma {:induction false} BoundsNear(qs: seq<Rect>, bound: int)
    requires AllNear(qs, bound) && bound >= 0
    ensures RectNear(Bounds(qs), bound)
  {
    if |qs| > 0 {
      assert RectNear(qs[|qs| - 1], bound);
      BoundsNear(qs[..|qs| - 1], bound);
    }
  }

  lemma ConfineNear(c: Client, ms: seq<Monitor>, x: int, y: int)
    requires ClientBounded(c) && InReach(ms)
    ensures PointNear(Confine(c.Rects(), Screens(ms, 0, 0), x, y), 6 * REACH)
  {
    var cs, ss := c.Rects(), Screens(ms, 0, 0);
    if OnAny(cs, x, y) {
      OnAnyNear(cs, 5 * REACH, x, y);
    } else if OnAny(ss, x, y) {
      OnAnyNear(ss, 2 * REACH, x, y);
    } else {
      BoundsNear(ss, 2 * REACH);
      WallPointNear(cs, 5 * REACH, x, y);
    }
  }

  /** The cursor a push leads to, however deep the ray went. */
  lemma ProjectedNear(s: State, d: Dir, x: int, y: int, ray: Option<int>)
    requires Bounded(s) && PointNear((x, y), 2 * REACH) && LegalRay(s, d, Across(d, x, y), ray)
    ensures PointNear(Projected(s, d, x, y, ray), 6 * REACH)
  {
    if ray.Some? {
      var id :| id in s.clients && RayHits(s.clients[id], s.box, d, Across(d, x, y), ray.value);
      var c := s.clients[id];
      var i :| 0 <= i < |c.monitors| && Depth(s.box, d, c.Rects()[i]) == ray.value;
      assert RectNear(c.Rects()[i], 5 * REACH);
    }
  }

  // ---- Steps ----

  predicate EventInReach(e: Event) {
    match e
    case Register(_, _, ms) => InReach(ms)
    case ClientMonitors(_, ms) => InReach(ms)
    case ServerMonitors(ms) => InReach(ms)
    case Place(_, x, y) => PointNear((x, y), 2 * REACH)
    case Move(x, y) => PointNear((x, y), 2 * REACH)
    case _ => true
  }

  lemma PlacedNear(c: Client, ms: seq<Monitor>, p: Placement)
    requires InReach(ms) && PlacementBounded(p)
    ensures ClientBounded(Placed(c, ms, p))
  {
    CornerInReach(ms);
  }

  lemma ServerKeepsBounded(s: State, ms: seq<Monitor>)
    requires Bounded(s) && InReach(ms)
    ensures Bounded(ServerMonitorsStep(s, ms))
  {
    BoundsNear(Screens(ms, 0, 0), 2 * REACH);
    TrapInReach(ms);
  }

  lemma RegisterKeepsBounded(s: State, id: ConnId, name: Name, ms: seq<Monitor>)
    requires Bounded(s) && InReach(ms)
    ensures Bounded(RegisterStep(s, id, name, ms))
  {
    PlacedNear(Client(name, [], 0, 0, []), ms, PlacementFor(s, name));
  }

  lemma HotplugKeepsBounded(s: State, id: ConnId, ms: seq<Monitor>)
    requires Bounded(s) && InReach(ms)
    ensures Bounded(ClientMonitorsStep(s, id, ms))
  {
    if id in s.clients {
      var c := s.clients[id];
      PlacedNear(c, ms, if c.name in s.placements then s.placements[c.name] else Placement(0, 0));
    }
  }

  lemma PlaceKeepsBounded(s: State, name: Name, p: Placement)
    requires Bounded(s) && PlacementBounded(p)
    ensures Bounded(PlaceStep(s, name, p))
  {
    forall id | id in s.clients ensures ClientBounded(MovedIfNamed(s.clients[id], name, p)) {
      PlacedNear(s.clients[id], s.clients[id].monitors, p);
    }
  }

  lemma AimedBounded(s: State, x: int, y: int, ch: Choice)
    requires Bounded(s) && s.ActiveKnown() && PointNear((x, y), 2 * REACH) && LegalMove(s, x, y, ch)
    ensures Bounded(Aimed(s, x, y, ch))
  {
    if PushesOut(s, x, y) {
      ProjectedNear(s, PushDir(s, x, y).value, x, y, ch.ray);
    } else if Drives(s, x, y) {
      var raw := Raw(s, x, y);
      ConfineNear(s.clients[s.active.value], s.serverMons, raw.0, raw.1);
    }
  }

  lemma ResolveBounded(a: State, ch: Choice)
    requires Bounded(a) && a.ActiveKnown() && (ch.target.Some? ==> ch.target.value in a.clients)
    ensures Bounded(Resolve(a, ch))
  {
    var t := Resolve(a, ch);
    ResolveKeepsScreens(a, ch);
    assert t.v == a.v || t.v == ParkPoint(a);
    assert t.last == a.last || t.last == ParkPoint(a);
  }

  lemma MoveKeepsBounded(s: State, x: int, y: int, ch: Choice)
    requires Bounded(s) && s.ActiveKnown() && PointNear((x, y), 2 * REACH) && LegalMove(s, x, y, ch)
    ensures Bounded(MoveStep(s, x, y, ch))
  {
    if PushesOut(s, x, y) || Drives(s, x, y) {
      var a := Aimed(s, x, y, ch);
      AimedBounded(s, x, y, ch);
      ResolveBounded(a, ch);
    }
  }

  lemma InputKeepsBounded(s: State, e: Event, ch: Choice)
    requires Bounded(s) && Legal(s, e, ch) && (e.Button? || e.Wheel? || e.Key?)
    ensures Bounded(Step(s, e, ch))
  {
    var t := Step(s, e, ch);
    InputKeepsScreens(s, e, ch);
  }

  lemma StepKeepsBounded(s: State, e: Event, ch: Choice)
    requires Bounded(s) && Legal(s, e, ch) && EventInReach(e)
    ensures Bounded(Step(s, e, ch))
  {
    match e
    case Register(id, name, ms) => RegisterKeepsBounded(s, id, name, ms);
    case Unregister(_) =>
    case ClientMonitors(id, ms) => HotplugKeepsBounded(s, id, ms);
    case ServerMonitors(ms) => ServerKeepsBounded(s, ms);
    case Place(name, x, y) => PlaceKeepsBounded(s, name, Placement(x, y));
    case Move(x, y) => MoveKeepsBounded(s, x, y, ch);
    case Button(_, _) => InputKeepsBounded(s, e, ch);
    case Wheel(_, _) => InputKeepsBounded(s, e, ch);
    case Key(_, _) => InputKeepsBounded(s, e, ch);
    case Start =>
    case Stop =>
    case CaptureLost =>
  }

  // ---- Runs ----

  lemma InitialBounded(ms: seq<Monitor>, seeds: map<Name, Placement>)
    requires InReach(ms) && forall n :: n in seeds ==> PlacementBounded(seeds[n])
    ensures Bounded(Initial(ms, seeds))
  {
    BoundsNear(Screens(ms, 0, 0), 2 * REACH);
    TrapInReach(ms);
  }

  /** Every state of a run that starts in reach, and whose monitors, placements and pointer
      samples are in reach, is bounded: no 32-bit operation of the router ever overflows. */
  lemma {:induction false} RunStaysBounded(r: Run, i: nat, ms: seq<Monitor>, seeds: map<Name, Placement>)
    requires r.Valid() && i < |r.states| && r.states[0] == Initial(ms, seeds)
    requires InReach(ms) && forall n :: n in seeds ==> PlacementBounded(seeds[n])
    requires forall j :: 0 <= j < i ==> EventInReach(r.events[j])
    ensures Bounded(r.states[i])
  {
    if i == 0 {
      InitialBounded(ms, seeds);
    } else {
      RunStaysBounded(r, i - 1, ms, seeds);
      RunStep(r, i - 1);
      StepKeepsBounded(r.states[i - 1], r.events[i - 1], r.choices[i - 1]);
    }
  }
}
