/** Whole-run laws of placements, for every sequence of
    connects, disconnects, hotplugs, drags and input. */
module RunLaws {
  import opened Wire
  import opened Geometry
  import opened RouterModel
  import opened LayoutLaws

  // ---- Placements ----

  function ShiftRect(q: Rect, dx: int, dy: int): Rect {
    Rect(q.l + dx, q.t + dy, q.r + dx, q.b + dy)
  }

  lemma {:induction false} BoundsShift(ms: seq<Monitor>, ox: int, oy: int)
    requires |ms| > 0
    ensures Bounds(Screens(ms, ox, oy)) == ShiftRect(Bounds(Screens(ms, 0, 0)), ox, oy)
  {
    var n := |ms| - 1;
    if n > 0 {
      BoundsShift(ms[..n], ox, oy);
      assert Screens(ms, ox, oy)[..n] == Screens(ms[..n], ox, oy);
      assert Screens(ms, 0, 0)[..n] == Screens(ms[..n], 0, 0);
    }
  }

  /** Every client's offsets translate its monitors to the placement of its name. */
  ghost predicate OffsetsFollow(s: State) {
    forall id :: id in s.clients ==>
      var c := s.clients[id];
      && c.name in s.placements
      && c.offX == s.placements[c.name].x - Bounds(Screens(c.monitors, 0, 0)).l
      && c.offY == s.placements[c.name].y - Bounds(Screens(c.monitors, 0, 0)).t
  }

  ghost predicate BoxFollows(s: State) {
    s.box == Bounds(s.ServerRects()) && s.trap == TrapOf(s.serverMons)
  }

  /** t may differ from s in what was sent, but not in names, screens or placements. */
  ghost predicate SameScreens(s: State, t: State) {
    && t.placements == s.placements && t.serverMons == s.serverMons
    && t.box == s.box && t.trap == s.trap
    && t.clients.Keys == s.clients.Keys
    && forall id :: id in s.clients ==> t.clients[id] == s.clients[id].(sent := t.clients[id].sent)
  }

  lemma ButtonKeepsScreens(s: State, b: byte, down: bool)
    requires s.ActiveKnown()
    ensures SameScreens(s, ButtonStep(s, b, down))
  {
  }

  lemma KeyKeepsScreens(s: State, k: uint16, down: bool)
    requires s.ActiveKnown()
    ensures SameScreens(s, KeyStep(s, k, down))
  {
  }

  lemma WheelKeepsScreens(s: State, dx: int16, dy: int16)
    requires s.ActiveKnown()
    ensures SameScreens(s, WheelStep(s, dx, dy))
  {
  }

  lemma InputKeepsScreens(s: State, e: Event, ch: Choice)
    requires Legal(s, e, ch) && (e.Button? || e.Wheel? || e.Key? || e.Start? || e.Stop? || e.CaptureLost?)
    ensures SameScreens(s, Step(s, e, ch))
  {
    if e.Button? { ButtonKeepsScreens(s, e.button, e.down); }
    if e.Key? { KeyKeepsScreens(s, e.code, e.down); }
    if e.Wheel? { WheelKeepsScreens(s, e.dx, e.dy); }
  }

  lemma SameScreensTransitive(s: State, t: State, u: State)
    requires SameScreens(s, t) && SameScreens(t, u)
    ensures SameScreens(s, u)
  {
  }

  lemma DeliverKeepsScreens(s: State, id: ConnId, ms: seq<Message>)
    requires id in s.clients
    ensures SameScreens(s, Deliver(s, id, ms))
  {
  }

  lemma ResolveKeepsScreens(s: State, ch: Choice)
    requires s.ActiveKnown() && (ch.target.Some? ==> ch.target.value in s.clients)
    ensures SameScreens(s, Resolve(s, ch))
  {
    match (ch.target, s.active)
    case (Some(id), None) =>
      DeliverKeepsScreens(s, id, [Grab(true)] + AbsMessages(s.clients[id], s.v));
    case (None, Some(a)) =>
      DeliverKeepsScreens(s, a, Releases(ch) + [Grab(false)]);
    case (Some(id), Some(a)) =>
      var t := Deliver(s, a, Releases(ch) + [Grab(false)]);
      DeliverKeepsScreens(s, a, Releases(ch) + [Grab(false)]);
      DeliverKeepsScreens(t, id, [Grab(true)] + AbsMessages(s.clients[id], s.v));
      DeliverKeepsScreens(s, id, AbsMessages(s.clients[id], s.v));
    case (None, None) =>
  }

  lemma MoveKeepsScreens(s: State, x: int, y: int, ch: Choice)
    requires s.ActiveKnown() && (ch.target.Some? ==> ch.target.value in s.clients)
    ensures SameScreens(s, MoveStep(s, x, y, ch))
  {
    var a := Aimed(s, x, y, ch);
    if PushesOut(s, x, y) || Drives(s, x, y) {
      ResolveKeepsScreens(a, ch);
      SameScreensTransitive(s, a, Resolve(a, ch));
      SameScreensTransitive(s, Resolve(a, ch), MoveStep(s, x, y, ch));
    }
  }

  ghost predicate ScreensFollow(s: State) { OffsetsFollow(s) && BoxFollows(s) }

  lemma RegisterKeepsOffsets(s: State, id: ConnId, name: Name, ms: seq<Monitor>)
    requires ScreensFollow(s)
    ensures ScreensFollow(RegisterStep(s, id, name, ms))
  {
  }

  lemma PlaceKeepsOffsets(s: State, name: Name, p: Placement)
    requires ScreensFollow(s)
    ensures ScreensFollow(PlaceStep(s, name, p))
  {
  }

  lemma DepartureKeepsOffsets(s: State, id: ConnId)
    requires ScreensFollow(s)
    ensures ScreensFollow(UnregisterStep(s, id))
  {
  }

  lemma ClientHotplugKeepsOffsets(s: State, id: ConnId, ms: seq<Monitor>)
    requires ScreensFollow(s)
    ensures ScreensFollow(ClientMonitorsStep(s, id, ms))
  {
  }

  lemma ServerHotplugKeepsOffsets(s: State, ms: seq<Monitor>)
    requires ScreensFollow(s)
    ensures ScreensFollow(ServerMonitorsStep(s, ms))
  {
  }

  lemma {:induction false} RunKeepsOffsets(r: Run, i: nat)
    requires r.Valid() && i < |r.states|
    ensures ScreensFollow(r.states[i])
  {
    if i > 0 {
      RunKeepsOffsets(r, i - 1);
      var s, e, ch := r.states[i - 1], r.events[i - 1], r.choices[i - 1];
      RunStep(r, i - 1);
      match e
      case Move(x, y) => MoveKeepsScreens(s, x, y, ch);
      case Button(_, _) => InputKeepsScreens(s, e, ch);
      case Wheel(_, _) => InputKeepsScreens(s, e, ch);
      case Key(_, _) => InputKeepsScreens(s, e, ch);
      case Start => InputKeepsScreens(s, e, ch);
      case Stop => InputKeepsScreens(s, e, ch);
      case CaptureLost => InputKeepsScreens(s, e, ch);
      case Register(id, name, ms) => RegisterKeepsOffsets(s, id, name, ms);
      case Unregister(id) => DepartureKeepsOffsets(s, id);
      case ClientMonitors(id, ms) => ClientHotplugKeepsOffsets(s, id, ms);
      case ServerMonitors(ms) => ServerHotplugKeepsOffsets(s, ms);
      case Place(name, x, y) => PlaceKeepsOffsets(s, name, Placement(x, y));
    }
  }

  /** In every state of every run, a registered client with monitors has the top-left
      corner of its bounding box exactly at the placement stored for its name. */
  lemma ClientsSitAtTheirPlacement(r: Run, i: nat, id: ConnId)
    requires r.Valid() && i < |r.states|
    requires id in r.states[i].clients && |r.states[i].clients[id].monitors| > 0
    ensures var s := r.states[i];
      var c := s.clients[id];
      && c.name in s.placements
      && Bounds(c.Rects()).l == s.placements[c.name].x
      && Bounds(c.Rects()).t == s.placements[c.name].y
  {
    RunKeepsOffsets(r, i);
    var c := r.states[i].clients[id];
    BoundsShift(c.monitors, c.offX, c.offY);
  }

  lemma StepKeepsPlacement(s: State, e: Event, ch: Choice, name: Name)
    requires Legal(s, e, ch) && name in s.placements && (e.Place? ==> e.name != name)
    ensures var t := Step(s, e, ch);
      name in t.placements && t.placements[name] == s.placements[name]
  {
    match e
    case Move(x, y) => MoveKeepsScreens(s, x, y, ch);
    case Register(_, _, _) =>
    case Place(_, _, _) =>
    case Unregister(_) =>
    case ClientMonitors(_, _) =>
    case ServerMonitors(_) =>
    case _ => InputKeepsScreens(s, e, ch);
  }

  /** Once a name has a placement, nothing but a Place event for that very name
      changes it, however often its clients come and go. */
  lemma {:induction false} PlacementsPersist(r: Run, i: nat, j: nat, name: Name)
    requires r.Valid() && i <= j < |r.states| && name in r.states[i].placements
    requires forall k :: i <= k < j && r.events[k].Place? ==> r.events[k].name != name
    ensures name in r.states[j].placements
    ensures r.states[j].placements[name] == r.states[i].placements[name]
  {
    if i < j {
      PlacementsPersist(r, i, j - 1, name);
      RunStep(r, j - 1);
      StepKeepsPlacement(r.states[j - 1], r.events[j - 1], r.choices[j - 1], name);
    }
  }

  /** A client placed automatically never overlaps the server's desktop. */
  lemma AutoPlacementClearsServer(s: State, id: ConnId, name: Name, ms: seq<Monitor>, ch: Choice)
    requires Legal(s, Register(id, name, ms), ch) && name !in s.placements && |ms| > 0
    ensures var t := Step(s, Register(id, name, ms), ch);
      AllApart(t.clients[id].Rects(), s.box)
  {
    var t := Step(s, Register(id, name, ms), ch);
    var c := t.clients[id];
    BoundsShift(ms, c.offX, c.offY);
    assert IsRightmost(s.box.r, s.placements, PlacementFor(s, name).x);
    assert Bounds(c.Rects()).l == PlacementFor(s, name).x;
  }

  // ---- Automatic placements and other clients ----

  /** A registered client's bounding box never begins right of an automatic placement, so the
      two are apart exactly if it ends left of it, or their rows are disjoint. */
  lemma AutoPlacementClearsClientIff(r: Run, i: nat, other: ConnId, id: ConnId, name: Name, ms: seq<Monitor>, ch: Choice)
    requires r.Valid() && i < |r.states| && other in r.states[i].clients && |r.states[i].clients[other].monitors| > 0
    requires var s := r.states[i]; Legal(s, Register(id, name, ms), ch) && name !in s.placements
    requires |ms| > 0 && HasPixels(Bounds(Screens(ms, 0, 0)))
    ensures var s := r.states[i];
      var t := Step(s, Register(id, name, ms), ch);
      var o, n := Bounds(s.clients[other].Rects()), Bounds(t.clients[id].Rects());
      && t.clients[other] == s.clients[other] && o.l <= n.l && n.t == s.box.t
      && (Apart(o, n) <==> o.r <= n.l || o.b <= n.t || n.b <= o.t)
  {
    var s := r.states[i];
    var t := Step(s, Register(id, name, ms), ch);
    ClientsSitAtTheirPlacement(r, i, other);
    BoundsShift(ms, t.clients[id].offX, t.clients[id].offY);
    assert IsRightmost(s.box.r, s.placements, PlacementFor(s, name).x);
  }

  /** Where a name without a stored placement is put while nothing but seeds is stored. */
  ghost function Spot(box: Rect, seeds: map<Name, Placement>): Placement {
    Placement(Rightmost(box.r, seeds), box.t)
  }

  /** Names in seeds are where those put them, and all others on one spot. */
  ghost predicate Stacked(s: State, seeds: map<Name, Placement>) {
    && (forall n :: n in seeds ==> n in s.placements)
    && (forall n :: n in s.placements ==> s.placements[n] == if n in seeds then seeds[n] else Spot(s.box, seeds))
  }

  lemma RightmostStays(s: State, seeds: map<Name, Placement>)
    requires Stacked(s, seeds)
    ensures Rightmost(s.box.r, s.placements) == Rightmost(s.box.r, seeds)
  {
    var x, y := Rightmost(s.box.r, s.placements), Rightmost(s.box.r, seeds);
    assert IsRightmost(s.box.r, s.placements, x) && IsRightmost(s.box.r, seeds, y);
    assert forall n :: n in seeds ==> s.placements[n] == seeds[n];
  }

  lemma RegisterStacks(s: State, id: ConnId, name: Name, ms: seq<Monitor>, seeds: map<Name, Placement>)
    requires Stacked(s, seeds)
    ensures Stacked(RegisterStep(s, id, name, ms), seeds)
  {
    RightmostStays(s, seeds);
  }

  lemma StepStacks(s: State, e: Event, ch: Choice, seeds: map<Name, Placement>)
    requires Legal(s, e, ch) && Stacked(s, seeds) && !e.Place? && !e.ServerMonitors?
    ensures Stacked(Step(s, e, ch), seeds) && Step(s, e, ch).box == s.box
  {
    match e
    case Move(x, y) => MoveKeepsScreens(s, x, y, ch);
    case Register(id, name, ms) => RegisterStacks(s, id, name, ms, seeds);
    case Unregister(_) =>
    case ClientMonitors(_, _) =>
    case _ => InputKeepsScreens(s, e, ch);
  }

  /** No drag and no server hotplug in the first n steps. */
  predicate Undisturbed(r: Run, n: nat) {
    n <= |r.events| && forall j :: 0 <= j < n ==> !r.events[j].Place? && !r.events[j].ServerMonitors?
  }

  /** Automatic placement puts all clients in the same place: until something is dragged or the
      server's monitors change, all names without a placement at the start get the same one. */
  lemma {:induction false} AutoPlacementStacks(r: Run, i: nat)
    requires r.Valid() && i < |r.states| && Undisturbed(r, i)
    ensures Stacked(r.states[i], r.states[0].placements) && r.states[i].box == r.states[0].box
  {
    if i > 0 {
      AutoPlacementStacks(r, i - 1);
      RunStep(r, i - 1);
      StepStacks(r.states[i - 1], r.events[i - 1], r.choices[i - 1], r.states[0].placements);
    }
  }

  /** A registered client with pixels, of a name that had no placement at the start. */
  ghost predicate AutoPlaced(r: Run, i: nat, id: ConnId)
    requires i < |r.states|
  {
    && id in r.states[i].clients
    && var c := r.states[i].clients[id];
       |c.monitors| > 0 && HasPixels(Bounds(c.Rects())) && c.name !in r.states[0].placements
  }

  /** So any two of them overlap. */
  lemma AutoPlacedClientsOverlap(r: Run, i: nat, a: ConnId, b: ConnId)
    requires r.Valid() && i < |r.states| && Undisturbed(r, i) && AutoPlaced(r, i, a) && AutoPlaced(r, i, b)
    ensures var s := r.states[i];
      var p, q := Bounds(s.clients[a].Rects()), Bounds(s.clients[b].Rects());
      (p.l, p.t) == (q.l, q.t) && !Apart(p, q)
  {
    AutoPlacementStacks(r, i);
    ClientsSitAtTheirPlacement(r, i, a);
    ClientsSitAtTheirPlacement(r, i, b);
  }

  /** Two clients cover one pixel. */
  ghost predicate Collides(r: Run) {
    && r.Valid()
    && var s := r.states[|r.events|];
       exists a, b, x, y :: CoverBoth(s, a, b, x, y)
  }

  ghost predicate CoverBoth(s: State, a: ConnId, b: ConnId, x: int, y: int) {
    a != b && a in s.clients && b in s.clients && s.clients[a].Covers(x, y) && s.clients[b].Covers(x, y)
  }

  /** Two registrations are enough. */
  lemma TwoClientsCollide()
    ensures exists r: Run :: Collides(r) && |r.events| == 2
  {
    var m := Monitor(0, 0, 0, 100, 100, true, []);
    var ch := Choice(None, None, [], []);
    var s := Initial([m], map[]);
    var t := Step(s, Register("a", [0], [m]), ch);
    var u := Step(t, Register("b", [1], [m]), ch);
    var r := Run([s, t, u], [Register("a", [0], [m]), Register("b", [1], [m])], [ch, ch]);
    assert r.states[0] == Initial([m], map[]);
    assert r.StepsAt(0) && r.StepsAt(1);
    assert r.Valid();
    OneScreen(u.clients["a"]);
    OneScreen(u.clients["b"]);
    AutoPlacedClientsOverlap(r, 2, "a", "b");
    var q := u.clients["a"].Rects()[0];
    assert CoverBoth(u, "a", "b", q.l, q.t);
  }

  lemma OneScreen(c: Client)
    requires |c.monitors| == 1 && c.monitors[0].w > 0 && c.monitors[0].h > 0
    ensures var qs := c.Rects();
      Bounds(qs) == qs[0] && HasPixels(qs[0]) && Inside(qs[0], qs[0].l, qs[0].t)
  {
  }
}
