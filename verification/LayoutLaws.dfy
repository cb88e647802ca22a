/** What pointer motion does under a sane screen layout: exactly when a grab opens
    and closes, where the cursor ends up, and who can own it. */
module LayoutLaws {
  import opened Wire
  import opened Geometry
  import opened RouterModel

  // ---- The layout hypotheses ----

  /** Large enough that a cursor put HYSTERESIS pixels past an edge is still inside. */
  predicate Roomy(q: Rect) { q.r - q.l > HYSTERESIS && q.b - q.t > HYSTERESIS }

  predicate AllRoomy(qs: seq<Rect>) {
    |qs| > 0 && forall i :: 0 <= i < |qs| ==> Roomy(qs[i])
  }

  predicate AllApart(ps: seq<Rect>, q: Rect) {
    forall i :: 0 <= i < |ps| ==> Apart(ps[i], q)
  }

  ghost predicate ServerSane(s: State) {
    && AllRoomy(s.ServerRects()) && s.box == Bounds(s.ServerRects())
    && s.box.r - s.box.l > 2 * HYSTERESIS && s.box.b - s.box.t > 2 * HYSTERESIS
  }

  ghost predicate ClientsSane(s: State) {
    && (forall id :: id in s.clients ==>
          AllRoomy(s.clients[id].Rects()) && AllApart(s.clients[id].Rects(), s.box))
    && (forall a, b, i :: a in s.clients && b in s.clients && a != b && 0 <= i < |s.clients[b].Rects()| ==>
          AllApart(s.clients[a].Rects(), s.clients[b].Rects()[i]))
  }

  /** Monitors of at least 31x31 pixels, a server desktop of at least 61x61, and
      clients that overlap neither each other nor the server's bounding box. */
  ghost predicate Layout(s: State) { ServerSane(s) && ClientsSane(s) }

  predicate OnServer(s: State, p: (int, int)) { OnAny(s.ServerRects(), p.0, p.1) }

  /** On a server monitor and at least HYSTERESIS pixels inside the desktop box. */
  predicate SafelyParked(s: State, p: (int, int)) {
    && OnServer(s, p)
    && s.box.l + HYSTERESIS <= p.0 < s.box.r - HYSTERESIS
    && s.box.t + HYSTERESIS <= p.1 < s.box.b - HYSTERESIS
  }

  /** p is a pixel of the union of qs and none of its pixels is closer to (x, y). */
  ghost predicate IsProjection(qs: seq<Rect>, x: int, y: int, p: (int, int)) {
    OnAny(qs, p.0, p.1)
    && forall px, py :: OnAny(qs, px, py) ==> Dist2(x, y, p) <= Dist2(x, y, (px, py))
  }

  // ---- Pixels ----

  lemma InsideBoundsOf(qs: seq<Rect>, x: int, y: int)
    requires OnAny(qs, x, y)
    ensures Inside(Bounds(qs), x, y)
  {
  }

  /** A pixel of the server's box belongs to no client. */
  lemma BoxBelongsToServer(s: State, id: ConnId, x: int, y: int)
    requires Layout(s) && id in s.clients && Inside(s.box, x, y)
    ensures !s.clients[id].Covers(x, y)
  {
    var qs := s.clients[id].Rects();
    assert AllApart(qs, s.box);
  }

  /** A pixel belongs to at most one client. */
  lemma OneOwner(s: State, a: ConnId, b: ConnId, x: int, y: int)
    requires Layout(s) && a in s.clients && b in s.clients
    requires s.clients[a].Covers(x, y) && s.clients[b].Covers(x, y)
    ensures a == b
  {
    var i :| 0 <= i < |s.clients[b].Rects()| && Inside(s.clients[b].Rects()[i], x, y);
    assert a != b ==> AllApart(s.clients[a].Rects(), s.clients[b].Rects()[i]);
  }

  // ---- Parking ----

  lemma ClampLandsOnServer(ms: seq<Monitor>, x: int, y: int)
    requires AllRoomy(Screens(ms, 0, 0))
    ensures var p := ClampToServer(ms, x, y); OnAny(Screens(ms, 0, 0), p.0, p.1)
  {
    var qs := Screens(ms, 0, 0);
    if !OnAny(qs, x, y) {
      var h := HomeFrom(ms, 0);
      assert qs[h] == Screen(ms[h], 0, 0);
      assert Roomy(qs[h]);
      var p := ClampToServer(ms, x, y);
      assert Inside(qs[h], p.0, p.1);
    }
  }

  /** Parking keeps the cursor on the monitor it was clamped to. */
  lemma ParkIsSafe(s: State)
    requires ServerSane(s)
    ensures SafelyParked(s, ParkPoint(s))
  {
    var p := ClampToServer(s.serverMons, s.v.0, s.v.1);
    ClampLandsOnServer(s.serverMons, s.v.0, s.v.1);
    var qs := s.ServerRects();
    var i :| 0 <= i < |qs| && Inside(qs[i], p.0, p.1);
    assert Roomy(qs[i]);
    assert Inside(qs[i], ParkPoint(s).0, ParkPoint(s).1);
  }

  lemma LandingInBox(s: State, cb: Rect, x: int, y: int)
    requires ServerSane(s)
    ensures Inside(s.box, GapLanding(cb, s.box, x, y).0, GapLanding(cb, s.box, x, y).1)
  {
  }

  // ---- Motion while a client holds the grab ----

  /** The raw motion that ends a grab: onto a server monitor, or out of the client
      on a side beyond which the whole server desktop lies. */
  ghost predicate Leaves(s: State, raw: (int, int))
    requires s.active.Some? && s.ActiveKnown()
  {
    || OnServer(s, raw)
    || ExitsToward(Bounds(s.clients[s.active.value].Rects()), s.box, raw.0, raw.1)
  }

  lemma ConfineWhenLeaving(s: State, raw: (int, int))
    requires Layout(s) && s.active.Some? && s.ActiveKnown() && Leaves(s, raw)
    ensures var p := Confine(s.clients[s.active.value].Rects(), s.ServerRects(), raw.0, raw.1);
      Inside(s.box, p.0, p.1)
  {
    var cs := s.clients[s.active.value].Rects();
    if OnServer(s, raw) {
      InsideBoundsOf(s.ServerRects(), raw.0, raw.1);
    } else {
      if OnAny(cs, raw.0, raw.1) { InsideBoundsOf(cs, raw.0, raw.1); }
      LandingInBox(s, Bounds(cs), raw.0, raw.1);
    }
  }

  lemma ConfineWhenStaying(s: State, raw: (int, int))
    requires Layout(s) && s.active.Some? && s.ActiveKnown() && !Leaves(s, raw)
    ensures var c := s.clients[s.active.value];
      var p := Confine(c.Rects(), s.ServerRects(), raw.0, raw.1);
      && c.Covers(p.0, p.1)
      && (if c.Covers(raw.0, raw.1) then p == raw else IsProjection(c.Rects(), raw.0, raw.1, p))
  {
    var cs := s.clients[s.active.value].Rects();
    assert forall i :: 0 <= i < |cs| ==> Roomy(cs[i]) ==> HasPixels(cs[i]);
    WallPointIsProjection(cs, raw.0, raw.1);
  }

  /** A settled motion of a grabbed cursor ends the grab exactly when the raw
      position is on the server or leaves toward it; otherwise the same client
      keeps the cursor, on its own pixels: where the motion put it, or at the true
      projection of that point onto the client. */
  lemma GrabbedMotion(s: State, x: int, y: int, ch: Choice)
    requires Layout(s) && s.ActiveKnown() && Drives(s, x, y) && LegalMove(s, x, y, ch)
    ensures var t := MoveStep(s, x, y, ch);
      var raw := Raw(s, x, y);
      var c := s.clients[s.active.value];
      && (t.active.None? <==> Leaves(s, raw))
      && (t.active.Some? ==> t.active == s.active && c.Covers(t.v.0, t.v.1))
      && (t.active.Some? && c.Covers(raw.0, raw.1) ==> t.v == raw)
      && (t.active.Some? && !c.Covers(raw.0, raw.1) ==> IsProjection(c.Rects(), raw.0, raw.1, t.v))
      && (t.active.None? ==> SafelyParked(s, t.v) && t.last == t.v && t.host.warp == t.v)
  {
    var raw := Raw(s, x, y);
    var a := Aimed(s, x, y, ch);
    var id := s.active.value;
    if Leaves(s, raw) {
      ConfineWhenLeaving(s, raw);
      if ch.target.Some? { BoxBelongsToServer(s, ch.target.value, a.v.0, a.v.1); }
      ParkIsSafe(a);
      assert MoveStep(s, x, y, ch) == CloseGrab(a, ch);
    } else {
      ConfineWhenStaying(s, raw);
      assert s.clients[id].Covers(a.v.0, a.v.1);
      OneOwner(s, id, ch.target.value, a.v.0, a.v.1);
    }
  }

  /** While the grab stays, the client is told of the motion by exactly one position
      message and no other session hears of it. */
  lemma GrabbedMotionReport(s: State, x: int, y: int, ch: Choice)
    requires Layout(s) && s.ActiveKnown() && Drives(s, x, y) && LegalMove(s, x, y, ch)
    requires MoveStep(s, x, y, ch).active.Some?
    ensures var t := MoveStep(s, x, y, ch);
      var id := s.active.value;
      var c := s.clients[id];
      && |AbsMessages(c, t.v)| == 1
      && t.clients == s.clients[id := c.(sent := c.sent + AbsMessages(c, t.v))]
  {
    GrabbedMotion(s, x, y, ch);
    var a := Aimed(s, x, y, ch);
    var c := s.clients[s.active.value];
    OneOwner(s, s.active.value, ch.target.value, a.v.0, a.v.1);
    var i :| 0 <= i < |c.Rects()| && Inside(c.Rects()[i], a.v.0, a.v.1);
  }

  // ---- Opening a grab ----

  /** Some client has a pixel k steps beyond the server's box along the push. */
  ghost predicate ClientOnRay(s: State, d: Dir, perp: int, k: int) {
    exists id :: id in s.clients
      && s.clients[id].Covers(RayPixel(s.box, d, perp, k).0, RayPixel(s.box, d, perp, k).1)
  }

  predicate PerpInBox(box: Rect, d: Dir, perp: int) {
    if d.ToRight? || d.ToLeft? then box.t <= perp < box.b else box.l <= perp < box.r
  }

  /** A client pixel on the ray belongs to a monitor the raycast considers. */
  lemma PixelOnRayIsHit(s: State, id: ConnId, d: Dir, perp: int, k: int, i: nat)
    requires Layout(s) && id in s.clients && k >= 0 && PerpInBox(s.box, d, perp)
    requires i < |s.clients[id].monitors|
    requires Inside(s.clients[id].Rects()[i], RayPixel(s.box, d, perp, k).0, RayPixel(s.box, d, perp, k).1)
    ensures var q := s.clients[id].Rects()[i];
      0 <= Depth(s.box, d, q) <= k && RayHits(s.clients[id], s.box, d, perp, Depth(s.box, d, q))
  {
    var q := s.clients[id].Rects()[i];
    assert AllApart(s.clients[id].Rects(), s.box);
    assert Apart(q, s.box);
  }

  /** A hit at depth k shows the client at that pixel and HYSTERESIS pixels past it. */
  lemma HitShowsPixels(s: State, id: ConnId, d: Dir, perp: int, k: int)
    requires Layout(s) && id in s.clients && RayHits(s.clients[id], s.box, d, perp, k)
    ensures forall n :: k <= n <= k + HYSTERESIS ==>
      s.clients[id].Covers(RayPixel(s.box, d, perp, n).0, RayPixel(s.box, d, perp, n).1)
  {
    var qs := s.clients[id].Rects();
    var i :| 0 <= i < |qs| && Depth(s.box, d, qs[i]) == k && Spans(d, qs[i], perp);
    assert Roomy(qs[i]);
    forall n | k <= n <= k + HYSTERESIS
      ensures s.clients[id].Covers(RayPixel(s.box, d, perp, n).0, RayPixel(s.box, d, perp, n).1)
    {
      assert Inside(qs[i], RayPixel(s.box, d, perp, n).0, RayPixel(s.box, d, perp, n).1);
    }
  }

  /** The raycast finds the first client pixel along the ray, if there is any. */
  lemma RayFindsFirstPixel(s: State, d: Dir, perp: int, ray: Option<int>)
    requires Layout(s) && PerpInBox(s.box, d, perp) && LegalRay(s, d, perp, ray)
    ensures ray.Some? <==> exists k :: k >= 0 && ClientOnRay(s, d, perp, k)
    ensures ray.Some? ==> ray.value >= 0 && ClientOnRay(s, d, perp, ray.value)
    ensures ray.Some? ==> forall k :: 0 <= k < ray.value ==> !ClientOnRay(s, d, perp, k)
  {
    if ray.Some? {
      var id :| id in s.clients && RayHits(s.clients[id], s.box, d, perp, ray.value);
      HitShowsPixels(s, id, d, perp, ray.value);
      assert ClientOnRay(s, d, perp, ray.value);
    }
    forall k | k >= 0 && ClientOnRay(s, d, perp, k)
      ensures ray.Some? && ray.value <= k
    {
      var p := RayPixel(s.box, d, perp, k);
      var id :| id in s.clients && s.clients[id].Covers(p.0, p.1);
      var qs := s.clients[id].Rects();
      var i :| 0 <= i < |qs| && Inside(qs[i], p.0, p.1);
      PixelOnRayIsHit(s, id, d, perp, k, i);
    }
  }

  /** Client pixels begin k steps ahead of a push, and t is the state in which the
      owner of that first pixel has the grab: cursor HYSTERESIS pixels past its near
      edge, pointer warped to the trap, stale motion being dropped. */
  ghost predicate OpensAt(s: State, t: State, d: Dir, perp: int, k: int) {
    && k >= 0 && (forall j :: 0 <= j < k ==> !ClientOnRay(s, d, perp, j))
    && t.active.Some? && t.active.value in s.clients
    && (var p := RayPixel(s.box, d, perp, k); s.clients[t.active.value].Covers(p.0, p.1))
    && t.v == RayPixel(s.box, d, perp, k + HYSTERESIS)
    && s.clients[t.active.value].Covers(t.v.0, t.v.1)
    && t.syncing && t.host.warp == s.trap
  }

  lemma PushedState(s: State, x: int, y: int, ch: Choice)
    requires s.ActiveKnown() && PushesOut(s, x, y)
    requires ch.target.Some? && ch.target.value in s.clients
    ensures var t := MoveStep(s, x, y, ch);
      && t.active == ch.target && t.v == Projected(s, PushDir(s, x, y).value, x, y, ch.ray)
      && t.syncing && t.host.warp == s.trap
  {
    assert Resolve(Aimed(s, x, y, ch), ch) == OpenGrab(Aimed(s, x, y, ch), ch.target.value);
  }

  /** The client found under the projected cursor owns the pixel the ray hit. */
  lemma PushTarget(s: State, d: Dir, perp: int, k: int, v: (int, int), target: Option<ConnId>)
    requires Layout(s) && v == RayPixel(s.box, d, perp, k + HYSTERESIS)
    requires LegalRay(s, d, perp, Some(k)) && LegalTarget(s.(v := v), target)
    ensures target.Some? && target.value in s.clients && s.clients[target.value].Covers(v.0, v.1)
    ensures var p := RayPixel(s.box, d, perp, k); s.clients[target.value].Covers(p.0, p.1)
  {
    var id :| id in s.clients && RayHits(s.clients[id], s.box, d, perp, k);
    HitShowsPixels(s, id, d, perp, k);
    assert s.clients[id].Covers(v.0, v.1);
    OneOwner(s, id, target.value, v.0, v.1);
  }

  lemma OpenedAtFirstPixel(s: State, t: State, d: Dir, perp: int, k: int)
    requires Layout(s) && PerpInBox(s.box, d, perp) && LegalRay(s, d, perp, Some(k))
    requires t.v == RayPixel(s.box, d, perp, k + HYSTERESIS) && LegalTarget(s.(v := t.v), t.active)
    requires t.active.Some? ==> t.syncing && t.host.warp == s.trap
    ensures OpensAt(s, t, d, perp, k)
  {
    RayFindsFirstPixel(s, d, perp, Some(k));
    PushTarget(s, d, perp, k, t.v, t.active);
  }

  lemma MissedEveryPixel(s: State, d: Dir, perp: int, v: (int, int), target: Option<ConnId>)
    requires Layout(s) && PerpInBox(s.box, d, perp) && LegalRay(s, d, perp, None)
    requires v == RayPixel(s.box, d, perp, HYSTERESIS) && LegalTarget(s.(v := v), target)
    ensures target.None?
  {
    RayFindsFirstPixel(s, d, perp, None);
    if target.Some? {
      assert ClientOnRay(s, d, perp, HYSTERESIS);
    }
  }

  /** What a push makes of s: the cursor past what the ray hit, and the grab on whoever
      was found there. */
  ghost predicate Pushed(s: State, t: State, d: Dir, perp: int, ray: Option<int>) {
    && LegalRay(s, d, perp, ray)
    && t.v == RayPixel(s.box, d, perp, RayDepth(ray) + HYSTERESIS)
    && LegalTarget(s.(v := t.v), t.active)
    && (t.active.Some? ==> t.syncing && t.host.warp == s.trap)
  }

  lemma PushUnfolds(s: State, x: int, y: int, ch: Choice)
    requires s.ActiveKnown() && PushesOut(s, x, y) && LegalMove(s, x, y, ch)
    ensures var d := PushDir(s, x, y).value; Pushed(s, MoveStep(s, x, y, ch), d, Across(d, x, y), ch.ray)
  {
    var v := Projected(s, PushDir(s, x, y).value, x, y, ch.ray);
    assert Aimed(s, x, y, ch) == s.(v := v);
    if ch.target.Some? { PushedState(s, x, y, ch); }
  }

  /** A grab is open in t exactly when some client lies ahead on the pushed row or
      column of s, and then on the owner of the first pixel ahead. */
  ghost predicate OpensExactly(s: State, t: State, d: Dir, perp: int) {
    && (t.active.Some? <==> exists k :: k >= 0 && ClientOnRay(s, d, perp, k))
    && (t.active.Some? ==> exists k :: OpensAt(s, t, d, perp, k))
  }

  lemma PushHits(s: State, t: State, d: Dir, perp: int, k: int)
    requires Layout(s) && PerpInBox(s.box, d, perp) && Pushed(s, t, d, perp, Some(k))
    ensures OpensExactly(s, t, d, perp)
  {
    OpenedAtFirstPixel(s, t, d, perp, k);
    RayFindsFirstPixel(s, d, perp, Some(k));
  }

  lemma PushMisses(s: State, t: State, d: Dir, perp: int)
    requires Layout(s) && PerpInBox(s.box, d, perp) && Pushed(s, t, d, perp, None)
    ensures OpensExactly(s, t, d, perp)
  {
    MissedEveryPixel(s, d, perp, t.v, t.active);
    RayFindsFirstPixel(s, d, perp, None);
  }

  lemma PushOutcome(s: State, t: State, d: Dir, perp: int, ray: Option<int>)
    requires Layout(s) && PerpInBox(s.box, d, perp) && Pushed(s, t, d, perp, ray)
    ensures OpensExactly(s, t, d, perp)
  {
    match ray
    case Some(k) => PushHits(s, t, d, perp, k);
    case None => PushMisses(s, t, d, perp);
  }

  lemma SampleInBox(s: State, d: Dir, x: int, y: int)
    requires Inside(s.box, x, y)
    ensures PerpInBox(s.box, d, Across(d, x, y))
  {
  }

  /** The grab a push opens, in that same event, is exactly the one the layout calls for. */
  lemma PushIsExact(s: State, x: int, y: int, ch: Choice)
    requires Layout(s) && s.ActiveKnown() && PushesOut(s, x, y) && LegalMove(s, x, y, ch)
    requires Inside(s.box, x, y)
    ensures var d := PushDir(s, x, y).value;
      OpensExactly(s, MoveStep(s, x, y, ch), d, Across(d, x, y))
  {
    var d := PushDir(s, x, y).value;
    PushUnfolds(s, x, y, ch);
    SampleInBox(s, d, x, y);
    PushOutcome(s, MoveStep(s, x, y, ch), d, Across(d, x, y), ch.ray);
  }

  // ---- Who may own the cursor ----

  /** Under a sane layout no pointer motion hands the grab from one client to
      another: ownership always passes through the server. */
  lemma MotionNeverSwitches(s: State, x: int, y: int, ch: Choice)
    requires s.active.Some? && Layout(s) && s.ActiveKnown() && LegalMove(s, x, y, ch)
    ensures MoveStep(s, x, y, ch).active.None? || MoveStep(s, x, y, ch).active == s.active
  {
    if Drives(s, x, y) { GrabbedMotion(s, x, y, ch); }
  }

  ghost predicate HandsOver(r: Run, i: nat)
    requires |r.states| == |r.events| + 1 && i < |r.events|
  {
    r.states[i].active.Some? && r.states[i + 1].active.Some? && r.states[i].active != r.states[i + 1].active
  }

  /** No event of a run hands the grab over directly, provided the layout is sane
      whenever the pointer moves, however it was edited in between. */
  lemma RunNeverSwitches(r: Run, i: nat)
    requires r.Valid() && i < |r.events|
    requires r.events[i].Move? ==> Layout(r.states[i])
    ensures !HandsOver(r, i)
  {
    var s, e, ch := r.states[i], r.events[i], r.choices[i];
    RunStep(r, i);
    if e.Move? && s.active.Some? { MotionNeverSwitches(s, e.x, e.y, ch); }
  }
}
