/** Conditions on the server's monitors under which a release by motion is never followed at
    once by a new grab, and what a disconnect leaves remembered instead. */
module OscillationLaws {
  import opened Wire
  import opened Geometry
  import opened RouterModel
  import opened LayoutLaws
  import opened RunLaws
  import opened SessionLaws

  ghost predicate AtSomeEdge(s: State, p: (int, int)) {
    exists d: Dir :: AtEdge(s.ServerRects(), d, p.0, p.1)
  }

  ghost predicate ReleasesByMotion(r: Run, i: nat)
    requires |r.states| == |r.events| + 1 && i < |r.events|
  {
    r.events[i].Move? && r.states[i].active.Some? && r.states[i + 1].active.None?
  }

  /** A release by motion parks both the cursor and the edge detector's memory. */
  lemma ReleaseParks(s: State, x: int, y: int, ch: Choice)
    requires ServerSane(s) && s.ActiveKnown() && s.active.Some? && LegalMove(s, x, y, ch)
    requires MoveStep(s, x, y, ch).active.None?
    ensures SafelyParked(s, MoveStep(s, x, y, ch).last)
    ensures MoveStep(s, x, y, ch).last == MoveStep(s, x, y, ch).v
  {
    ParkIsSafe(Aimed(s, x, y, ch));
  }

  lemma ParkedIsFree(s: State, p: (int, int))
    requires ServerSane(s) && |s.serverMons| == 1 && SafelyParked(s, p)
    ensures !AtSomeEdge(s, p)
  {
    var qs := s.ServerRects();
    assert Bounds(qs) == qs[0];
    forall d: Dir ensures !AtEdge(qs, d, p.0, p.1) {
      assert Inside(qs[0], Neighbour(d, p.0, p.1).0, Neighbour(d, p.0, p.1).1);
    }
  }

  /** An ungrabbed pointer sample at an edge of the desktop, in steps i+1..n-1. */
  ghost predicate EdgeSampled(r: Run, i: nat, n: nat)
    requires r.Valid() && n <= |r.events|
  {
    exists j :: i < j < n && r.events[j].Move?
      && r.states[j].active.None? && r.states[j + 1].active.None?
      && AtSomeEdge(r.states[j], (r.events[j].x, r.events[j].y))
  }

  lemma UngrabbedMove(s: State, x: int, y: int, ch: Choice)
    requires s.ActiveKnown() && s.active.None? && LegalMove(s, x, y, ch) && MoveStep(s, x, y, ch).active.None?
    ensures MoveStep(s, x, y, ch).last == (x, y)
  {
    var a := Aimed(s, x, y, ch);
    assert PushesOut(s, x, y) ==> Resolve(a, ch).active.None?;
  }

  lemma UngrabbedStep(s: State, e: Event, ch: Choice)
    requires Legal(s, e, ch) && s.active.None? && !e.ServerMonitors?
    requires e.Move? ==> Step(s, e, ch).active.None?
    ensures var t := Step(s, e, ch);
      t.serverMons == s.serverMons && t.active.None?
      && t.last == if e.Move? then (e.x, e.y) else s.last
  {
    if e.Move? {
      MoveKeepsScreens(s, e.x, e.y, ch);
      UngrabbedMove(s, e.x, e.y, ch);
    } else if e.Button? || e.Key? || e.Wheel? {
      InputKeepsScreens(s, e, ch);
    }
  }

  /** What the edge detector remembers in t cannot by itself open a grab. */
  ghost predicate RemembersNoEdge(t: State) { !AtSomeEdge(t, t.last) }

  /** No place where a release can park the cursor is at an edge: a condition on the
      server's monitors alone. */
  ghost predicate ParkingClear(s: State) {
    forall p: (int, int) :: SafelyParked(s, p) ==> !AtSomeEdge(s, p)
  }

  /** A safe place is where a cursor already there is parked. */
  lemma ParkedStays(s: State, p: (int, int))
    requires SafelyParked(s, p)
    ensures ParkPoint(s.(v := p)) == p
  {
  }

  /** The condition speaks of exactly the places where releases park. */
  lemma ParkingClearIff(s: State)
    requires ServerSane(s)
    ensures ParkingClear(s) <==> forall v: (int, int) :: !AtSomeEdge(s, ParkPoint(s.(v := v)))
  {
    if ParkingClear(s) {
      forall v: (int, int) ensures !AtSomeEdge(s, ParkPoint(s.(v := v))) {
        ParkIsSafe(s.(v := v));
        assert SafelyParked(s, ParkPoint(s.(v := v)));
      }
    } else {
      var p: (int, int) :| SafelyParked(s, p) && AtSomeEdge(s, p);
      ParkedStays(s, p);
      assert AtSomeEdge(s, ParkPoint(s.(v := p)));
    }
  }

  lemma OneMonitorIsClear(s: State)
    requires ServerSane(s) && |s.serverMons| == 1
    ensures ParkingClear(s)
  {
    forall p: (int, int) | SafelyParked(s, p) ensures !AtSomeEdge(s, p) {
      ParkedIsFree(s, p);
    }
  }

  lemma SameServerSameParking(s: State, t: State)
    requires t.serverMons == s.serverMons && t.box == s.box
    ensures ParkingClear(s) == ParkingClear(t)
  {
    forall p: (int, int)
      ensures SafelyParked(s, p) == SafelyParked(t, p) && AtSomeEdge(s, p) == AtSomeEdge(t, p)
    {
      SameSampleEdges(s, t, p);
    }
  }

  /** With a clear parking layout a release by motion leaves no edge remembered. */
  lemma ReleaseForgetsEdges(s: State, x: int, y: int, ch: Choice)
    requires ServerSane(s) && ParkingClear(s)
    requires s.ActiveKnown() && s.active.Some? && LegalMove(s, x, y, ch)
    requires MoveStep(s, x, y, ch).active.None?
    ensures RemembersNoEdge(MoveStep(s, x, y, ch))
  {
    var t := MoveStep(s, x, y, ch);
    MoveKeepsScreens(s, x, y, ch);
    ReleaseParks(s, x, y, ch);
    SameSampleEdges(s, t, t.last);
  }

  lemma SameSampleEdges(s: State, t: State, p: (int, int))
    requires t.serverMons == s.serverMons
    ensures AtSomeEdge(s, p) == AtSomeEdge(t, p)
  {
    assert forall d: Dir ::
      AtEdge(t.ServerRects(), d, p.0, p.1) == AtEdge(s.ServerRects(), d, p.0, p.1);
  }

  lemma SampleOrSame(r: Run, i: nat, n: nat)
    requires r.Valid() && i < n - 1 < |r.events|
    requires r.states[n - 1].active.None? && r.states[n].active.None? && !r.events[n - 1].ServerMonitors?
    requires RemembersNoEdge(r.states[n - 1]) || EdgeSampled(r, i, n - 1)
    ensures RemembersNoEdge(r.states[n]) || EdgeSampled(r, i, n)
  {
    var s, t, e := r.states[n - 1], r.states[n], r.events[n - 1];
    RunStep(r, n - 1);
    UngrabbedStep(s, e, r.choices[n - 1]);
    SameSampleEdges(s, t, t.last);
    if e.Move? && AtSomeEdge(t, t.last) {
      assert AtSomeEdge(s, (e.x, e.y));
      assert i < n - 1 < n;
    }
  }

  /** Between a release and the next grab, the edge detector remembers either a
      place away from every edge or an edge sample taken since the release. */
  lemma {:induction false} RememberedSinceRelease(r: Run, i: nat, n: nat)
    requires r.Valid() && i < n <= |r.events| && ReleasesByMotion(r, i)
    requires RemembersNoEdge(r.states[i + 1])
    requires forall j :: i < j < n ==> !r.events[j].ServerMonitors?
    requires forall j :: i < j <= n ==> r.states[j].active.None?
    ensures RemembersNoEdge(r.states[n]) || EdgeSampled(r, i, n)
    decreases n
  {
    if n > i + 1 {
      RememberedSinceRelease(r, i, n - 1);
      SampleOrSame(r, i, n);
    }
  }

  lemma GrabNeedsEdgeMemory(s: State, e: Event, ch: Choice)
    requires Legal(s, e, ch) && s.active.None? && Step(s, e, ch).active.Some?
    ensures e.Move? && AtSomeEdge(s, s.last) && AtSomeEdge(s, (e.x, e.y))
  {
    assert PushesOut(s, e.x, e.y);
    var d := PushDir(s, e.x, e.y).value;
    assert Pushes(s, d, e.x, e.y);
  }

  lemma GrabAfterForgetting(r: Run, i: nat, n: nat)
    requires r.Valid() && i < n < |r.events| && ReleasesByMotion(r, i)
    requires RemembersNoEdge(r.states[i + 1])
    requires forall j :: i < j < n ==> !r.events[j].ServerMonitors?
    requires forall j :: i < j <= n ==> r.states[j].active.None?
    requires r.states[n + 1].active.Some?
    ensures EdgeSampled(r, i, n) && n > i + 1
  {
    RememberedSinceRelease(r, i, n);
    RunStep(r, n);
    GrabNeedsEdgeMemory(r.states[n], r.events[n], r.choices[n]);
  }

  /** No grab/release oscillation: if the server's monitors leave no parking place at an
      edge, and are left alone, the first grab after a release by motion is preceded by
      an ungrabbed edge sample taken after that release. In particular the very next
      event never grabs again. */
  lemma NoOscillation(r: Run, i: nat, n: nat)
    requires r.Valid() && i < n < |r.events| && ReleasesByMotion(r, i)
    requires ServerSane(r.states[i]) && ParkingClear(r.states[i])
    requires forall j :: i < j < n ==> !r.events[j].ServerMonitors?
    requires forall j :: i < j <= n ==> r.states[j].active.None?
    requires r.states[n + 1].active.Some?
    ensures EdgeSampled(r, i, n) && n > i + 1
  {
    RunStep(r, i);
    ReleaseForgetsEdges(r.states[i], r.events[i].x, r.events[i].y, r.choices[i]);
    GrabAfterForgetting(r, i, n);
  }

  /** One server monitor of at least 61x61 pixels is enough for that. */
  lemma NoOscillationOnOneMonitor(r: Run, i: nat, n: nat)
    requires r.Valid() && i < n < |r.events| && ReleasesByMotion(r, i)
    requires ServerSane(r.states[i]) && |r.states[i].serverMons| == 1
    requires forall j :: i < j < n ==> !r.events[j].ServerMonitors?
    requires forall j :: i < j <= n ==> r.states[j].active.None?
    requires r.states[n + 1].active.Some?
    ensures EdgeSampled(r, i, n) && n > i + 1
  {
    OneMonitorIsClear(r.states[i]);
    NoOscillation(r, i, n);
  }

  // ---- Releases on the host's desktop ----

  /** The trap point mirrored through the centre of the desktop box. */
  function Mirror(s: State): (int, int) {
    (s.box.l + s.box.r - 1 - s.trap.0, s.box.t + s.box.b - 1 - s.trap.1)
  }

  /** Where the gap teleport lands: HYSTERESIS pixels inside one side of the box. */
  predicate OnFrame(s: State, p: (int, int)) {
    && s.box.l + HYSTERESIS <= p.0 < s.box.r - HYSTERESIS && s.box.t + HYSTERESIS <= p.1 < s.box.b - HYSTERESIS
    && (p.0 == s.box.l + HYSTERESIS || p.0 == s.box.r - 1 - HYSTERESIS
        || p.1 == s.box.t + HYSTERESIS || p.1 == s.box.b - 1 - HYSTERESIS)
  }

  /** Where a motion sampled on the desktop can take a grabbed cursor as it ends the grab:
      onto a server monitor directly, wherever that is but at the mirrored trap, or across
      the gap. */
  predicate Lands(s: State, p: (int, int)) {
    (OnServer(s, p) && p != Mirror(s)) || OnFrame(s, p)
  }

  /** No such landing is parked at an edge: again a condition on the server's monitors. */
  ghost predicate LandingsClear(s: State) {
    forall p: (int, int) :: Lands(s, p) ==> !AtSomeEdge(s, ParkPoint(s.(v := p)))
  }

  lemma ClearParkingClearsLandings(s: State)
    requires ServerSane(s) && ParkingClear(s)
    ensures LandingsClear(s)
  {
    ParkingClearIff(s);
  }

  /** The two conditions differ at most about one place. */
  lemma OnlyMirrorDiffers(s: State, p: (int, int))
    requires LandingsClear(s) && SafelyParked(s, p) && AtSomeEdge(s, p)
    ensures p == Mirror(s)
  {
    ParkedStays(s, p);
    assert Lands(s, p) ==> !AtSomeEdge(s, ParkPoint(s.(v := p)));
  }

  lemma SameServerSameLandings(s: State, t: State)
    requires t.serverMons == s.serverMons && t.box == s.box && t.trap == s.trap
    ensures LandingsClear(s) == LandingsClear(t)
  {
    forall p: (int, int)
      ensures Lands(s, p) == Lands(t, p)
      ensures AtSomeEdge(s, ParkPoint(s.(v := p))) == AtSomeEdge(t, ParkPoint(t.(v := p)))
    {
      SameSampleEdges(s, t, ParkPoint(s.(v := p)));
    }
  }

  /** Step j, if it is a pointer sample, lies on a server monitor, and the layout is sane. */
  ghost predicate MetAt(r: Run, j: nat)
    requires j < |r.events| && j < |r.states|
  {
    r.events[j].Move? ==> Layout(r.states[j]) && OnServer(r.states[j], (r.events[j].x, r.events[j].y))
  }

  /** A run whose first n steps the program can meet, on server monitors that stay ms. */
  ghost predicate OnDesktop(r: Run, n: nat, ms: seq<Monitor>) {
    && r.Valid() && n <= |r.events|
    && (forall j :: 0 <= j <= n ==> r.states[j].serverMons == ms)
    && (forall j :: 0 <= j < n ==> MetAt(r, j))
  }

  ghost predicate GrabbedOutside(s: State) {
    s.active.Some? ==> !Inside(s.box, s.v.0, s.v.1)
  }

  lemma PushKeepsOutside(s: State, x: int, y: int, ch: Choice)
    requires s.ActiveKnown() && PushesOut(s, x, y) && LegalMove(s, x, y, ch)
    ensures !Inside(s.box, MoveStep(s, x, y, ch).v.0, MoveStep(s, x, y, ch).v.1)
  {
    PushUnfolds(s, x, y, ch);
  }

  lemma MoveKeepsOutside(s: State, x: int, y: int, ch: Choice)
    requires Layout(s) && s.ActiveKnown() && LegalMove(s, x, y, ch) && GrabbedOutside(s)
    ensures GrabbedOutside(MoveStep(s, x, y, ch))
  {
    var t := MoveStep(s, x, y, ch);
    MoveKeepsScreens(s, x, y, ch);
    if PushesOut(s, x, y) {
      PushKeepsOutside(s, x, y, ch);
    } else if Drives(s, x, y) {
      GrabbedMotion(s, x, y, ch);
      if t.active.Some? && Inside(s.box, t.v.0, t.v.1) {
        BoxBelongsToServer(s, t.active.value, t.v.0, t.v.1);
      }
    }
  }

  lemma OtherKeepsOutside(s: State, e: Event, ch: Choice)
    requires Legal(s, e, ch) && !e.Move? && GrabbedOutside(s) && (s.phase.Idle? ==> s.active.None?)
    requires Step(s, e, ch).box == s.box
    ensures GrabbedOutside(Step(s, e, ch))
  {
  }

  lemma StepKeepsOutside(s: State, e: Event, ch: Choice)
    requires Legal(s, e, ch) && GrabbedOutside(s) && (s.phase.Idle? ==> s.active.None?)
    requires (e.Move? ==> Layout(s)) && Step(s, e, ch).box == s.box
    ensures GrabbedOutside(Step(s, e, ch))
  {
    if e.Move? { MoveKeepsOutside(s, e.x, e.y, ch); } else { OtherKeepsOutside(s, e, ch); }
  }

  lemma BoxStays(r: Run, n: nat, ms: seq<Monitor>)
    requires OnDesktop(r, n, ms) && n > 0
    ensures r.states[n].box == r.states[n - 1].box
  {
    RunKeepsOffsets(r, n - 1);
    RunKeepsOffsets(r, n);
  }

  lemma {:induction false} RunKeepsOutside(r: Run, n: nat, ms: seq<Monitor>)
    requires OnDesktop(r, n, ms)
    ensures GrabbedOutside(r.states[n])
  {
    if n > 0 {
      RunKeepsOutside(r, n - 1, ms);
      RunStep(r, n - 1);
      RunKeepsProtocol(r, n - 1);
      BoxStays(r, n, ms);
      assert MetAt(r, n - 1);
      StepKeepsOutside(r.states[n - 1], r.events[n - 1], r.choices[n - 1]);
    }
  }

  lemma RawMissesMirror(s: State, x: int, y: int)
    requires Inside(s.box, x, y) && !Inside(s.box, s.v.0, s.v.1)
    ensures Raw(s, x, y) != Mirror(s)
  {
  }

  lemma TeleportLandsOnFrame(s: State, cb: Rect, x: int, y: int)
    requires ServerSane(s) && ExitsToward(cb, s.box, x, y)
    ensures OnFrame(s, GapLanding(cb, s.box, x, y))
  {
  }

  /** Every release by a motion sampled on the desktop is such a landing. */
  lemma ReleaseLands(s: State, x: int, y: int, ch: Choice) returns (p: (int, int))
    requires Layout(s) && s.ActiveKnown() && s.active.Some? && GrabbedOutside(s)
    requires OnServer(s, (x, y)) && LegalMove(s, x, y, ch) && MoveStep(s, x, y, ch).active.None?
    ensures Lands(s, p) && MoveStep(s, x, y, ch).last == ParkPoint(s.(v := p))
  {
    var a, raw := Aimed(s, x, y, ch), Raw(s, x, y);
    p := a.v;
    assert Drives(s, x, y);
    GrabbedMotion(s, x, y, ch);
    InsideBoundsOf(s.ServerRects(), x, y);
    RawMissesMirror(s, x, y);
    var cb := Bounds(s.clients[s.active.value].Rects());
    if !OnServer(s, raw) {
      ConfineAcross(s, raw);
      TeleportLandsOnFrame(s, cb, raw.0, raw.1);
    }
    assert ParkPoint(a) == ParkPoint(s.(v := p));
  }

  lemma ConfineAcross(s: State, raw: (int, int))
    requires Layout(s) && s.active.Some? && s.ActiveKnown() && Leaves(s, raw) && !OnServer(s, raw)
    ensures var cs := s.clients[s.active.value].Rects();
      && ExitsToward(Bounds(cs), s.box, raw.0, raw.1)
      && Confine(cs, s.ServerRects(), raw.0, raw.1) == GapLanding(Bounds(cs), s.box, raw.0, raw.1)
  {
    var cs := s.clients[s.active.value].Rects();
    if OnAny(cs, raw.0, raw.1) {
      InsideBoundsOf(cs, raw.0, raw.1);
    }
  }

  /** On the desktop the weaker condition is enough for NoOscillation. */
  lemma NoOscillationOnDesktop(r: Run, i: nat, n: nat, ms: seq<Monitor>)
    requires OnDesktop(r, i + 1, ms) && i < n < |r.events| && ReleasesByMotion(r, i)
    requires LandingsClear(r.states[i])
    requires forall j :: i < j < n ==> !r.events[j].ServerMonitors?
    requires forall j :: i < j <= n ==> r.states[j].active.None?
    requires r.states[n + 1].active.Some?
    ensures EdgeSampled(r, i, n) && n > i + 1
  {
    RunStep(r, i);
    assert OnDesktop(r, i, ms);
    RunKeepsOutside(r, i, ms);
    var s, t, e := r.states[i], r.states[i + 1], r.events[i];
    assert MetAt(r, i);
    var p := ReleaseLands(s, e.x, e.y, r.choices[i]);
    SameSampleEdges(s, t, t.last);
    GrabAfterForgetting(r, i, n);
  }

  // ---- Disconnecting instead of releasing ----

  /** The server monitor a cursor off the desktop is clamped to. */
  function Home(s: State): Rect
    requires |s.serverMons| > 0
  {
    Screen(s.serverMons[HomeFrom(s.serverMons, 0)], 0, 0)
  }

  predicate OnBorder(q: Rect, p: (int, int)) {
    Inside(q, p.0, p.1) && (p.0 == q.l || p.0 == q.r - 1 || p.1 == q.t || p.1 == q.b - 1)
  }

  /** Nothing adjoins the home monitor along its border. */
  ghost predicate HomeExposed(s: State)
    requires |s.serverMons| > 0
  {
    forall p: (int, int) :: OnBorder(Home(s), p) ==> AtSomeEdge(s, p)
  }

  lemma HomeIsRoomy(s: State)
    requires ServerSane(s)
    ensures Roomy(Home(s)) && s.box.l <= Home(s).l && Home(s).r <= s.box.r && s.box.t <= Home(s).t && Home(s).b <= s.box.b
  {
    var h := HomeFrom(s.serverMons, 0);
    assert s.ServerRects()[h] == Home(s);
  }

  lemma OutsideClampsToBorder(s: State, v: (int, int))
    requires ServerSane(s) && !Inside(s.box, v.0, v.1)
    ensures ClampToServer(s.serverMons, v.0, v.1) == Snap(Home(s), v.0, v.1)
    ensures OnBorder(Home(s), ClampToServer(s.serverMons, v.0, v.1))
  {
    HomeIsRoomy(s);
    if OnServer(s, v) { InsideBoundsOf(s.ServerRects(), v.0, v.1); }
  }

  lemma BorderIsReached(s: State, p: (int, int)) returns (v: (int, int))
    requires ServerSane(s) && OnBorder(Home(s), p)
    ensures !Inside(s.box, v.0, v.1) && ClampToServer(s.serverMons, v.0, v.1) == p
  {
    var h := Home(s);
    HomeIsRoomy(s);
    v := if p.0 == h.l then (s.box.l - 1, p.1)
         else if p.0 == h.r - 1 then (s.box.r, p.1)
         else if p.1 == h.t then (p.0, s.box.t - 1)
         else (p.0, s.box.b);
    OutsideClampsToBorder(s, v);
  }

  /** A disconnect clamps the cursor and does not pad it. Every cursor off the desktop is
      left at an edge exactly when nothing adjoins the home monitor. */
  lemma DisconnectLeavesEdgeIff(s: State)
    requires ServerSane(s)
    ensures (forall v: (int, int) :: !Inside(s.box, v.0, v.1) ==> AtSomeEdge(s, ClampToServer(s.serverMons, v.0, v.1)))
       <==> HomeExposed(s)
  {
    if HomeExposed(s) {
      forall v: (int, int) | !Inside(s.box, v.0, v.1)
        ensures AtSomeEdge(s, ClampToServer(s.serverMons, v.0, v.1))
      {
        OutsideClampsToBorder(s, v);
      }
    } else {
      var p: (int, int) :| OnBorder(Home(s), p) && !AtSomeEdge(s, p);
      var v := BorderIsReached(s, p);
    }
  }

  lemma DisconnectRemembers(s: State, id: ConnId)
    requires s.active == Some(id) && id in s.clients
    ensures RemembersNoEdge(UnregisterStep(s, id)) <==> !AtSomeEdge(s, ClampToServer(s.serverMons, s.v.0, s.v.1))
  {
    SameSampleEdges(s, UnregisterStep(s, id), ClampToServer(s.serverMons, s.v.0, s.v.1));
  }

  /** So on such monitors a client that disconnects with the cursor on it always leaves an
      edge remembered. */
  lemma DisconnectLeavesEdge(s: State, id: ConnId)
    requires Layout(s) && HomeExposed(s) && s.active == Some(id) && id in s.clients
    requires s.clients[id].Covers(s.v.0, s.v.1)
    ensures !RemembersNoEdge(UnregisterStep(s, id))
  {
    if Inside(s.box, s.v.0, s.v.1) { BoxBelongsToServer(s, id, s.v.0, s.v.1); }
    DisconnectLeavesEdgeIff(s);
    DisconnectRemembers(s, id);
  }

  lemma OneMonitorEdges(s: State, p: (int, int))
    requires ServerSane(s) && |s.serverMons| == 1 && Inside(s.box, p.0, p.1)
    ensures s.box == s.ServerRects()[0] == Home(s)
    ensures AtSomeEdge(s, p) <==> OnBorder(s.box, p)
  {
    var qs := s.ServerRects();
    assert Bounds(qs) == qs[0];
    assert forall x, y :: OnAny(qs, x, y) <==> Inside(qs[0], x, y);
    assert p.0 == s.box.l ==> AtEdge(qs, ToLeft, p.0, p.1);
    assert p.0 == s.box.r - 1 ==> AtEdge(qs, ToRight, p.0, p.1);
    assert p.1 == s.box.t ==> AtEdge(qs, ToTop, p.0, p.1);
    assert p.1 == s.box.b - 1 ==> AtEdge(qs, ToBottom, p.0, p.1);
  }

  lemma OneMonitorIsExposed(s: State)
    requires ServerSane(s) && |s.serverMons| == 1
    ensures HomeExposed(s)
  {
    forall p: (int, int) | OnBorder(Home(s), p) ensures AtSomeEdge(s, p) {
      HomeIsRoomy(s);
      OneMonitorEdges(s, p);
    }
  }

  /** With one server monitor what a disconnect leaves is away from every edge exactly when
      the cursor was strictly inside. */
  lemma DisconnectForgetsEdgesIff(s: State, id: ConnId)
    requires ServerSane(s) && |s.serverMons| == 1 && s.active == Some(id) && id in s.clients
    ensures RemembersNoEdge(UnregisterStep(s, id))
      <==> s.box.l < s.v.0 < s.box.r - 1 && s.box.t < s.v.1 < s.box.b - 1
  {
    var p := ClampToServer(s.serverMons, s.v.0, s.v.1);
    DisconnectRemembers(s, id);
    ClampLandsOnServer(s.serverMons, s.v.0, s.v.1);
    InsideBoundsOf(s.ServerRects(), p.0, p.1);
    OneMonitorEdges(s, p);
  }

  /** A client leaves with the cursor on it, and no edge is remembered. */
  ghost predicate LeavesQuietly(s: State, id: ConnId) {
    && Layout(s) && s.active == Some(id) && id in s.clients
    && s.clients[id].Covers(s.v.0, s.v.1) && RemembersNoEdge(UnregisterStep(s, id))
  }

  /** With two monitors it need not: a cursor right of both is clamped to the seam. */
  lemma TwinsForgetEdges()
    ensures exists s: State, id: ConnId :: LeavesQuietly(s, id)
  {
    var ms := [Monitor(0, 0, 0, 100, 100, true, []), Monitor(1, 100, 0, 100, 100, false, [])];
    var c := Client([], [Monitor(0, 0, 0, 100, 100, true, [])], 200, 0, []);
    var s := Initial(ms, map[]).(clients := map["c" := c], active := Some("c"), v := (230, 50));
    TwinBox(ms);
    assert c.Rects() == [Rect(200, 0, 300, 100)];
    assert Inside(c.Rects()[0], 230, 50);
    assert forall id :: id in s.clients ==> s.clients[id] == c;
    DisconnectRemembers(s, "c");
    OutsideClampsToBorder(s, (230, 50));
    assert Home(s) == Rect(0, 0, 100, 100);
    forall d: Dir ensures !AtEdge(s.ServerRects(), d, 99, 50) {
      var i := if d.ToRight? then 1 else 0;
      assert Inside(s.ServerRects()[i], Neighbour(d, 99, 50).0, Neighbour(d, 99, 50).1);
    }
    assert LeavesQuietly(s, "c");
  }

  lemma TwinBox(ms: seq<Monitor>)
    requires ms == [Monitor(0, 0, 0, 100, 100, true, []), Monitor(1, 100, 0, 100, 100, false, [])]
    ensures Screens(ms, 0, 0) == [Rect(0, 0, 100, 100), Rect(100, 0, 200, 100)]
    ensures Initial(ms, map[]).box == Rect(0, 0, 200, 100)
  {
    var qs := Screens(ms, 0, 0);
    assert qs == [Rect(0, 0, 100, 100), Rect(100, 0, 200, 100)];
    assert qs[..|qs| - 1] == [Rect(0, 0, 100, 100)];
    assert Bounds([Rect(0, 0, 100, 100)]) == Rect(0, 0, 100, 100);
    assert Bounds(qs) == Hull(Bounds(qs[..|qs| - 1]), qs[1]);
  }
}
