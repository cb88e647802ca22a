/** What one pointer sample does, told in plain coordinates: monitors as the columns and rows
    they show, the previous sample, and distances in pixels, not in the terms the router's
    steps are defined in. */
module PointerLaws {
  import opened Wire
  import opened Geometry
  import opened RouterModel
  import opened LayoutLaws
  import opened RosterLaws

  // ---- Pixels ----

  /** Monitor m of a desktop shifted by (ox, oy) shows pixel (x, y). */
  predicate Shows(m: Monitor, ox: int, oy: int, x: int, y: int) {
    && ox + m.x as int <= x < ox + m.x as int + m.w as int
    && oy + m.y as int <= y < oy + m.y as int + m.h as int
  }

  predicate Lit(ms: seq<Monitor>, ox: int, oy: int, x: int, y: int) {
    exists i :: 0 <= i < |ms| && Shows(ms[i], ox, oy, x, y)
  }

  predicate ServerShows(s: State, x: int, y: int) { Lit(s.serverMons, 0, 0, x, y) }

  predicate ClientShows(c: Client, x: int, y: int) { Lit(c.monitors, c.offX, c.offY, x, y) }

  lemma LitIsOnAny(ms: seq<Monitor>, ox: int, oy: int, x: int, y: int)
    ensures Lit(ms, ox, oy, x, y) <==> OnAny(Screens(ms, ox, oy), x, y)
  {
    var qs := Screens(ms, ox, oy);
    forall i | 0 <= i < |ms| ensures Shows(ms[i], ox, oy, x, y) <==> Inside(qs[i], x, y) {
    }
  }

  lemma ServerShowsIff(s: State, x: int, y: int)
    ensures ServerShows(s, x, y) <==> OnServer(s, (x, y))
  {
    LitIsOnAny(s.serverMons, 0, 0, x, y);
  }

  lemma ClientShowsIff(c: Client, x: int, y: int)
    ensures ClientShows(c, x, y) <==> c.Covers(x, y)
  {
    LitIsOnAny(c.monitors, c.offX, c.offY, x, y);
  }

  // ---- When a push is detected ----

  /** One more pixel in direction d is off every server monitor. */
  predicate AtBrink(s: State, d: Dir, x: int, y: int) {
    match d
    case ToRight => !ServerShows(s, x + 1, y)
    case ToLeft => !ServerShows(s, x - 1, y)
    case ToBottom => !ServerShows(s, x, y + 1)
    case ToTop => !ServerShows(s, x, y - 1)
  }

  /** So it is for the remembered sample and for this one. */
  predicate PushedTwice(s: State, d: Dir, x: int, y: int) {
    s.haveLast && AtBrink(s, d, s.last.0, s.last.1) && AtBrink(s, d, x, y)
  }

  lemma BrinkIsEdge(s: State, d: Dir, x: int, y: int)
    ensures AtBrink(s, d, x, y) <==> AtEdge(s.ServerRects(), d, x, y)
  {
    var n := Neighbour(d, x, y);
    LitIsOnAny(s.serverMons, 0, 0, n.0, n.1);
  }

  lemma PushedTwiceIff(s: State, d: Dir, x: int, y: int)
    ensures PushedTwice(s, d, x, y) <==> Pushes(s, d, x, y)
  {
    BrinkIsEdge(s, d, x, y);
    BrinkIsEdge(s, d, s.last.0, s.last.1);
  }

  /** A push is detected exactly when nobody has the grab and two samples in a row, wherever on
      it, are at the desktop's edge on one and the same side. */
  lemma PushDetectedIff(s: State, x: int, y: int)
    ensures PushesOut(s, x, y) <==> s.active.None? && exists d: Dir :: PushedTwice(s, d, x, y)
  {
    forall d: Dir ensures PushedTwice(s, d, x, y) <==> Pushes(s, d, x, y) {
      PushedTwiceIff(s, d, x, y);
    }
    if PushDir(s, x, y).Some? { assert PushedTwice(s, PushDir(s, x, y).value, x, y); }
  }

  function Rank(d: Dir): nat {
    match d
    case ToRight => 0
    case ToLeft => 1
    case ToBottom => 2
    case ToTop => 3
  }

  /** In a corner right comes before left, left before bottom, bottom before top. */
  predicate PushedFirst(s: State, d: Dir, x: int, y: int) {
    PushedTwice(s, d, x, y) && forall e: Dir :: Rank(e) < Rank(d) ==> !PushedTwice(s, e, x, y)
  }

  lemma FirstIsChosen(s: State, d: Dir, x: int, y: int)
    requires PushedFirst(s, d, x, y)
    ensures PushDir(s, x, y) == Some(d)
  {
    forall e: Dir ensures PushedTwice(s, e, x, y) <==> Pushes(s, e, x, y) {
      PushedTwiceIff(s, e, x, y);
    }
  }

  /** Without a push a free pointer just takes the cursor and the memory along. */
  lemma FreeMotion(s: State, x: int, y: int, ch: Choice)
    requires s.ActiveKnown() && s.active.None? && (ch.target.Some? ==> ch.target.value in s.clients)
    requires forall d: Dir :: !PushedTwice(s, d, x, y)
    ensures MoveStep(s, x, y, ch) == s.(v := (x, y), last := (x, y), haveLast := true)
  {
    PushDetectedIff(s, x, y);
  }

  // ---- What a push opens ----

  /** The pixel k columns or rows beyond the desktop's box, level with (x, y). */
  function Ahead(s: State, d: Dir, x: int, y: int, k: int): (int, int) {
    match d
    case ToRight => (s.box.r + k, y)
    case ToLeft => (s.box.l - 1 - k, y)
    case ToBottom => (x, s.box.b + k)
    case ToTop => (x, s.box.t - 1 - k)
  }

  ghost predicate ClientAhead(s: State, d: Dir, x: int, y: int, k: int) {
    exists id :: id in s.clients && ClientShows(s.clients[id], Ahead(s, d, x, y, k).0, Ahead(s, d, x, y, k).1)
  }

  /** In t the owner of the first client pixel ahead, k pixels away, has the grab, with the
      cursor thirty pixels further on, and motion before the pointer settles is dropped. */
  ghost predicate TakenAt(s: State, t: State, d: Dir, x: int, y: int, k: int) {
    && k >= 0 && (forall j :: 0 <= j < k ==> !ClientAhead(s, d, x, y, j))
    && t.active.Some? && t.active.value in s.clients
    && ClientShows(s.clients[t.active.value], Ahead(s, d, x, y, k).0, Ahead(s, d, x, y, k).1)
    && t.v == Ahead(s, d, x, y, k + 30) && ClientShows(s.clients[t.active.value], t.v.0, t.v.1)
    && t.syncing && t.host.warp == s.trap && t.last == s.trap
  }

  lemma ClientAheadIff(s: State, d: Dir, x: int, y: int, k: int)
    ensures ClientAhead(s, d, x, y, k) <==> ClientOnRay(s, d, Across(d, x, y), k)
    ensures Ahead(s, d, x, y, k) == RayPixel(s.box, d, Across(d, x, y), k)
  {
    var p := Ahead(s, d, x, y, k);
    forall id | id in s.clients ensures ClientShows(s.clients[id], p.0, p.1) <==> s.clients[id].Covers(p.0, p.1) {
      ClientShowsIff(s.clients[id], p.0, p.1);
    }
  }

  lemma OpensAtIsTaken(s: State, t: State, d: Dir, x: int, y: int, k: int)
    requires OpensAt(s, t, d, Across(d, x, y), k) && t.last == s.trap
    ensures TakenAt(s, t, d, x, y, k)
  {
    forall j ensures ClientAhead(s, d, x, y, j) <==> ClientOnRay(s, d, Across(d, x, y), j) {
      ClientAheadIff(s, d, x, y, j);
    }
    ClientAheadIff(s, d, x, y, k);
    ClientAheadIff(s, d, x, y, k + 30);
    var c, p := s.clients[t.active.value], Ahead(s, d, x, y, k);
    ClientShowsIff(c, p.0, p.1);
    ClientShowsIff(c, t.v.0, t.v.1);
  }

  lemma PushEnds(s: State, x: int, y: int, ch: Choice, d: Dir)
    requires s.ActiveKnown() && s.active.None? && PushDir(s, x, y) == Some(d) && LegalMove(s, x, y, ch)
    ensures var t := MoveStep(s, x, y, ch);
      if t.active.Some? then t.last == s.trap
      else ch.target.None? && t == s.(v := Projected(s, d, x, y, ch.ray), last := (x, y), haveLast := true)
  {
    var a := Aimed(s, x, y, ch);
    assert ch.target.None? ==> Resolve(a, ch) == a;
  }

  /** A push opens a grab, in that same event, exactly when some client has a pixel ahead, level
      with this sample; otherwise the sample is remembered and nobody has the grab. */
  lemma PushOpensExactly(s: State, x: int, y: int, ch: Choice, d: Dir)
    requires Layout(s) && s.ActiveKnown() && s.active.None? && PushedFirst(s, d, x, y)
    requires s.box.l <= x < s.box.r && s.box.t <= y < s.box.b && LegalMove(s, x, y, ch)
    ensures var t := MoveStep(s, x, y, ch);
      && (t.active.Some? <==> exists k :: k >= 0 && ClientAhead(s, d, x, y, k))
      && (t.active.Some? ==> exists k :: TakenAt(s, t, d, x, y, k))
      && (t.active.None? ==> t == s.(v := Ahead(s, d, x, y, 30), last := (x, y), haveLast := true))
  {
    var t, perp := MoveStep(s, x, y, ch), Across(d, x, y);
    FirstIsChosen(s, d, x, y);
    PushIsExact(s, x, y, ch);
    PushEnds(s, x, y, ch, d);
    forall k ensures ClientAhead(s, d, x, y, k) <==> ClientOnRay(s, d, perp, k) {
      ClientAheadIff(s, d, x, y, k);
    }
    if t.active.Some? {
      var k :| OpensAt(s, t, d, perp, k);
      OpensAtIsTaken(s, t, d, x, y, k);
    } else {
      MissIsThirty(s, d, x, y, ch);
    }
  }

  lemma MissIsThirty(s: State, d: Dir, x: int, y: int, ch: Choice)
    requires Layout(s) && LegalRay(s, d, Across(d, x, y), ch.ray) && PerpInBox(s.box, d, Across(d, x, y))
    requires forall k :: k >= 0 ==> !ClientOnRay(s, d, Across(d, x, y), k)
    ensures Projected(s, d, x, y, ch.ray) == Ahead(s, d, x, y, 30)
  {
    RayFindsFirstPixel(s, d, Across(d, x, y), ch.ray);
    ClientAheadIff(s, d, x, y, 30);
  }

  // ---- Settling ----

  /** After a grab opened everything is dropped until a sample comes within a hundred pixels of
      the trap point on both axes; that one ends the dropping and does nothing else. */
  lemma SettlesIff(s: State, x: int, y: int, ch: Choice)
    requires s.ActiveKnown() && s.active.Some? && s.syncing && LegalMove(s, x, y, ch)
    ensures var near := -100 <= x - s.trap.0 <= 100 && -100 <= y - s.trap.1 <= 100;
      MoveStep(s, x, y, ch) == s.(syncing := !near)
  {
  }

  /** A settled pointer that stays at the trap point changes nothing. */
  lemma StillnessIsIgnored(s: State, ch: Choice)
    requires s.ActiveKnown() && s.active.Some? && !s.syncing && LegalMove(s, s.trap.0, s.trap.1, ch)
    ensures MoveStep(s, s.trap.0, s.trap.1, ch) == s
  {
  }

  // ---- Driving the cursor ----

  // The raw position is past all of the client on one side, and all of the server is beyond.

  predicate GapLeft(s: State, c: Client, x: int) {
    && (forall i :: 0 <= i < |c.monitors| ==> x < c.offX + c.monitors[i].x as int)
    && (forall i, j :: 0 <= i < |c.monitors| && 0 <= j < |s.serverMons| ==>
          s.serverMons[j].x as int + s.serverMons[j].w as int <= c.offX + c.monitors[i].x as int)
  }

  predicate GapRight(s: State, c: Client, x: int) {
    && (forall i :: 0 <= i < |c.monitors| ==> c.offX + c.monitors[i].x as int + c.monitors[i].w as int <= x)
    && (forall i, j :: 0 <= i < |c.monitors| && 0 <= j < |s.serverMons| ==>
          c.offX + c.monitors[i].x as int + c.monitors[i].w as int <= s.serverMons[j].x as int)
  }

  predicate GapAbove(s: State, c: Client, y: int) {
    && (forall i :: 0 <= i < |c.monitors| ==> y < c.offY + c.monitors[i].y as int)
    && (forall i, j :: 0 <= i < |c.monitors| && 0 <= j < |s.serverMons| ==>
          s.serverMons[j].y as int + s.serverMons[j].h as int <= c.offY + c.monitors[i].y as int)
  }

  predicate GapBelow(s: State, c: Client, y: int) {
    && (forall i :: 0 <= i < |c.monitors| ==> c.offY + c.monitors[i].y as int + c.monitors[i].h as int <= y)
    && (forall i, j :: 0 <= i < |c.monitors| && 0 <= j < |s.serverMons| ==>
          c.offY + c.monitors[i].y as int + c.monitors[i].h as int <= s.serverMons[j].y as int)
  }

  predicate CrossesGap(s: State, c: Client, p: (int, int)) {
    GapLeft(s, c, p.0) || GapRight(s, c, p.0) || GapAbove(s, c, p.1) || GapBelow(s, c, p.1)
  }

  lemma GapsAreExits(s: State, c: Client, p: (int, int))
    requires |c.monitors| > 0 && ServerSane(s)
    ensures var cb := Bounds(c.Rects());
      && (GapLeft(s, c, p.0) <==> p.0 < cb.l && s.box.r <= cb.l)
      && (GapRight(s, c, p.0) <==> p.0 >= cb.r && s.box.l >= cb.r)
      && (GapAbove(s, c, p.1) <==> p.1 < cb.t && s.box.b <= cb.t)
      && (GapBelow(s, c, p.1) <==> p.1 >= cb.b && s.box.t >= cb.b)
  {
    HorizontalGaps(s, c, p.0);
    VerticalGaps(s, c, p.1);
  }

  lemma HorizontalGaps(s: State, c: Client, x: int)
    requires |c.monitors| > 0 && ServerSane(s)
    ensures var cb := Bounds(c.Rects());
      && (GapLeft(s, c, x) <==> x < cb.l && s.box.r <= cb.l)
      && (GapRight(s, c, x) <==> x >= cb.r && s.box.l >= cb.r)
  {
    LeftGap(s, c, x);
    RightGap(s, c, x);
  }

  lemma LeftGap(s: State, c: Client, x: int)
    requires |c.monitors| > 0 && ServerSane(s)
    ensures GapLeft(s, c, x) <==> x < Bounds(c.Rects()).l && s.box.r <= Bounds(c.Rects()).l
  {
    var qs, cs := s.ServerRects(), c.Rects();
    BoundsTight(qs);
    BoundsTight(cs);
    var i :| 0 <= i < |cs| && cs[i].l == Bounds(cs).l;
    var j :| 0 <= j < |qs| && qs[j].r == Bounds(qs).r;
    assert cs[i].l == c.offX + c.monitors[i].x as int;
    assert qs[j].r == s.serverMons[j].x as int + s.serverMons[j].w as int;
  }

  lemma RightGap(s: State, c: Client, x: int)
    requires |c.monitors| > 0 && ServerSane(s)
    ensures GapRight(s, c, x) <==> x >= Bounds(c.Rects()).r && s.box.l >= Bounds(c.Rects()).r
  {
    var qs, cs := s.ServerRects(), c.Rects();
    BoundsTight(qs);
    BoundsTight(cs);
    var i :| 0 <= i < |cs| && cs[i].r == Bounds(cs).r;
    var j :| 0 <= j < |qs| && qs[j].l == Bounds(qs).l;
    assert cs[i].r == c.offX + c.monitors[i].x as int + c.monitors[i].w as int;
    assert qs[j].l == s.serverMons[j].x as int;
  }

  lemma VerticalGaps(s: State, c: Client, y: int)
    requires |c.monitors| > 0 && ServerSane(s)
    ensures var cb := Bounds(c.Rects());
      && (GapAbove(s, c, y) <==> y < cb.t && s.box.b <= cb.t)
      && (GapBelow(s, c, y) <==> y >= cb.b && s.box.t >= cb.b)
  {
    UpperGap(s, c, y);
    LowerGap(s, c, y);
  }

  lemma UpperGap(s: State, c: Client, y: int)
    requires |c.monitors| > 0 && ServerSane(s)
    ensures GapAbove(s, c, y) <==> y < Bounds(c.Rects()).t && s.box.b <= Bounds(c.Rects()).t
  {
    var qs, cs := s.ServerRects(), c.Rects();
    BoundsTight(qs);
    BoundsTight(cs);
    var i :| 0 <= i < |cs| && cs[i].t == Bounds(cs).t;
    var j :| 0 <= j < |qs| && qs[j].b == Bounds(qs).b;
    assert cs[i].t == c.offY + c.monitors[i].y as int;
    assert qs[j].b == s.serverMons[j].y as int + s.serverMons[j].h as int;
  }

  lemma LowerGap(s: State, c: Client, y: int)
    requires |c.monitors| > 0 && ServerSane(s)
    ensures GapBelow(s, c, y) <==> y >= Bounds(c.Rects()).b && s.box.t >= Bounds(c.Rects()).b
  {
    var qs, cs := s.ServerRects(), c.Rects();
    BoundsTight(qs);
    BoundsTight(cs);
    var i :| 0 <= i < |cs| && cs[i].b == Bounds(cs).b;
    var j :| 0 <= j < |qs| && qs[j].t == Bounds(qs).t;
    assert cs[i].b == c.offY + c.monitors[i].y as int + c.monitors[i].h as int;
    assert qs[j].t == s.serverMons[j].y as int;
  }

  /** a is the value of lo..hi nearest to v. */
  predicate NearestIn(v: int, lo: int, hi: int, a: int) {
    lo <= a <= hi && (if v < lo then a == lo else if v > hi then a == hi else a == v)
  }

  /** Where a motion to p comes to the server: p itself on a monitor; else thirty pixels inside
      the side it comes in by, and on the other axis as level with p as the same margin allows. */
  predicate ComesInAt(s: State, c: Client, p: (int, int), a: (int, int)) {
    if ServerShows(s, p.0, p.1) then a == p
    else
      && (if GapLeft(s, c, p.0) then a.0 == s.box.r - 31
          else if GapRight(s, c, p.0) then a.0 == s.box.l + 30
          else NearestIn(p.0, s.box.l + 30, s.box.r - 31, a.0))
      && (if GapAbove(s, c, p.1) then a.1 == s.box.b - 31
          else if GapBelow(s, c, p.1) then a.1 == s.box.t + 30
          else NearestIn(p.1, s.box.t + 30, s.box.b - 31, a.1))
  }

  /** q is a itself on a server monitor, and else the pixel of monitor i nearest to it. */
  predicate PulledTo(s: State, i: nat, a: (int, int), q: (int, int))
    requires i < |s.serverMons|
  {
    var m := s.serverMons[i];
    if ServerShows(s, a.0, a.1) then q == a
    else
      && NearestIn(a.0, m.x as int, m.x as int + m.w as int - 1, q.0)
      && NearestIn(a.1, m.y as int, m.y as int + m.h as int - 1, q.1)
  }

  /** Pulled to the home monitor, and then to thirty pixels inside the box. */
  ghost predicate ParksAt(s: State, a: (int, int), p: (int, int)) {
    exists i: nat, q: (int, int) :: IsHomeMonitor(s.serverMons, i) && PulledTo(s, i, a, q)
      && NearestIn(q.0, s.box.l + 30, s.box.r - 31, p.0) && NearestIn(q.1, s.box.t + 30, s.box.b - 31, p.1)
  }

  lemma HomeExists(ms: seq<Monitor>, k: nat)
    requires |ms| > 0 && k <= |ms| && forall j :: 0 <= j < k ==> !ms[j].primary
    ensures IsHomeMonitor(ms, HomeFrom(ms, k))
    decreases |ms| - k
  {
    if k < |ms| && !ms[k].primary { HomeExists(ms, k + 1); }
  }

  lemma ClampPulls(s: State, a: (int, int))
    requires ServerSane(s)
    ensures var i := HomeFrom(s.serverMons, 0);
      IsHomeMonitor(s.serverMons, i) && PulledTo(s, i, a, ClampToServer(s.serverMons, a.0, a.1))
  {
    HomeExists(s.serverMons, 0);
    ServerShowsIff(s, a.0, a.1);
    var i := HomeFrom(s.serverMons, 0);
    assert Roomy(s.ServerRects()[i]);
  }

  lemma ParkPointParks(s: State, a: State)
    requires ServerSane(s) && a.serverMons == s.serverMons && a.box == s.box
    ensures ParksAt(s, a.v, ParkPoint(a))
  {
    ClampPulls(s, a.v);
    var q, p := ClampToServer(s.serverMons, a.v.0, a.v.1), ParkPoint(a);
    assert NearestIn(q.0, s.box.l + 30, s.box.r - 31, p.0);
    assert NearestIn(q.1, s.box.t + 30, s.box.b - 31, p.1);
  }

  lemma ConfineComesIn(s: State, c: Client, p: (int, int))
    requires ServerSane(s) && |c.monitors| > 0
    requires ServerShows(s, p.0, p.1) || (CrossesGap(s, c, p) && !ClientShows(c, p.0, p.1))
    ensures ComesInAt(s, c, p, Confine(c.Rects(), s.ServerRects(), p.0, p.1))
  {
    GapsAreExits(s, c, p);
    ServerShowsIff(s, p.0, p.1);
    ClientShowsIff(c, p.0, p.1);
  }

  lemma GapIsOffClient(s: State, c: Client, p: (int, int))
    requires CrossesGap(s, c, p)
    ensures !ClientShows(c, p.0, p.1)
  {
  }

  /** q is a pixel of the client's and none of its pixels is nearer to p. */
  ghost predicate NearestPixel(c: Client, p: (int, int), q: (int, int)) {
    && ClientShows(c, q.0, q.1)
    && forall x, y :: ClientShows(c, x, y) ==>
         (p.0 - q.0) * (p.0 - q.0) + (p.1 - q.1) * (p.1 - q.1) <= (p.0 - x) * (p.0 - x) + (p.1 - y) * (p.1 - y)
  }

  lemma ProjectionIsNearest(c: Client, p: (int, int), q: (int, int))
    requires IsProjection(c.Rects(), p.0, p.1, q)
    ensures NearestPixel(c, p, q)
  {
    ClientShowsIff(c, q.0, q.1);
    forall x, y | ClientShows(c, x, y) ensures Dist2(p.0, p.1, q) <= Dist2(p.0, p.1, (x, y)) {
      ClientShowsIff(c, x, y);
    }
  }

  /** The cursor moved by as much as the sample is away from the trap point. */
  function Driven(s: State, x: int, y: int): (int, int) {
    (s.v.0 + (x - s.trap.0), s.v.1 + (y - s.trap.1))
  }

  /** The grab has ended and cursor, memory and pointer are parked together. */
  ghost predicate ReturnedAt(s: State, t: State, c: Client, p: (int, int)) {
    && t.active.None? && !t.syncing && t.last == t.v && t.host.warp == t.v
    && !t.host.consume && t.host.visible
    && exists a: (int, int) :: ComesInAt(s, c, p, a) && ParksAt(s, a, t.v)
  }

  /** The grab goes on, the pointer is trapped again, and the cursor is at p if that is the
      client's and at the client's nearest pixel otherwise. */
  ghost predicate StaysAt(s: State, t: State, c: Client, p: (int, int)) {
    && t.active == s.active && t.last == s.trap && t.host.warp == s.trap
    && (if ClientShows(c, p.0, p.1) then t.v == p else NearestPixel(c, p, t.v))
  }

  lemma LeavesIff(s: State, p: (int, int))
    requires Layout(s) && s.active.Some? && s.ActiveKnown()
    ensures var c := s.clients[s.active.value];
      |c.monitors| > 0 && (Leaves(s, p) <==> ServerShows(s, p.0, p.1) || CrossesGap(s, c, p))
  {
    var c := s.clients[s.active.value];
    assert AllRoomy(c.Rects());
    GapsAreExits(s, c, p);
    ServerShowsIff(s, p.0, p.1);
  }

  lemma ReleaseReturns(s: State, x: int, y: int, ch: Choice)
    requires Layout(s) && s.ActiveKnown() && Drives(s, x, y) && LegalMove(s, x, y, ch)
    requires MoveStep(s, x, y, ch).active.None?
    requires var c, p := s.clients[s.active.value], Driven(s, x, y);
      |c.monitors| > 0 && (ServerShows(s, p.0, p.1) || CrossesGap(s, c, p))
    ensures ReturnedAt(s, MoveStep(s, x, y, ch), s.clients[s.active.value], Driven(s, x, y))
  {
    var a, c, p := Aimed(s, x, y, ch), s.clients[s.active.value], Driven(s, x, y);
    DriveAims(s, x, y, ch);
    if CrossesGap(s, c, p) { GapIsOffClient(s, c, p); }
    ConfineComesIn(s, c, p);
    CloseReturns(s, a, ch, c, p);
  }

  lemma DriveAims(s: State, x: int, y: int, ch: Choice)
    requires s.ActiveKnown() && Drives(s, x, y) && LegalMove(s, x, y, ch)
    ensures var a, p, c := Aimed(s, x, y, ch), Driven(s, x, y), s.clients[s.active.value];
      && a == s.(v := Confine(c.Rects(), s.ServerRects(), p.0, p.1), last := s.trap, host := s.host.(warp := s.trap))
      && MoveStep(s, x, y, ch) == Resolve(a, ch)
  {
  }

  lemma CloseReturns(s: State, a: State, ch: Choice, c: Client, p: (int, int))
    requires ServerSane(s) && a.serverMons == s.serverMons && a.box == s.box && a.ActiveKnown() && a.active.Some?
    requires (ch.target.Some? ==> ch.target.value in a.clients) && Resolve(a, ch).active.None?
    requires ComesInAt(s, c, p, a.v)
    ensures ReturnedAt(s, Resolve(a, ch), c, p)
  {
    ParkPointParks(s, a);
    assert Resolve(a, ch) == CloseGrab(a, ch);
  }

  lemma KeepStays(s: State, x: int, y: int, ch: Choice)
    requires Layout(s) && s.ActiveKnown() && Drives(s, x, y) && LegalMove(s, x, y, ch)
    requires MoveStep(s, x, y, ch).active.Some?
    ensures StaysAt(s, MoveStep(s, x, y, ch), s.clients[s.active.value], Driven(s, x, y))
  {
    var a, c, p := Aimed(s, x, y, ch), s.clients[s.active.value], Driven(s, x, y);
    GrabbedMotion(s, x, y, ch);
    ClientShowsIff(c, p.0, p.1);
    assert ch.target == s.active;
    assert MoveStep(s, x, y, ch) == Deliver(a, s.active.value, AbsMessages(a.clients[s.active.value], a.v));
    if !c.Covers(p.0, p.1) { ProjectionIsNearest(c, p, MoveStep(s, x, y, ch).v); }
  }

  /** A settled motion away from the trap point moves the cursor by as much. It ends the grab
      exactly when that takes it onto a server monitor, or past all of the client on a side
      beyond which all of the server lies. */
  lemma DrivenMotion(s: State, x: int, y: int, ch: Choice)
    requires Layout(s) && s.ActiveKnown() && s.active.Some? && !s.syncing && (x, y) != s.trap
    requires LegalMove(s, x, y, ch)
    ensures var t, c, p := MoveStep(s, x, y, ch), s.clients[s.active.value], Driven(s, x, y);
      if ServerShows(s, p.0, p.1) || CrossesGap(s, c, p) then ReturnedAt(s, t, c, p) else StaysAt(s, t, c, p)
  {
    assert Drives(s, x, y);
    LeavesIff(s, Driven(s, x, y));
    GrabbedMotion(s, x, y, ch);
    if MoveStep(s, x, y, ch).active.None? { ReleaseReturns(s, x, y, ch); } else { KeepStays(s, x, y, ch); }
  }

  // ---- Telling the client ----

  predicate FirstShowing(c: Client, v: (int, int), i: nat) {
    && i < |c.monitors| && Shows(c.monitors[i], c.offX, c.offY, v.0, v.1)
    && forall j :: 0 <= j < i ==> !Shows(c.monitors[j], c.offX, c.offY, v.0, v.1)
  }

  /** The cursor is told as the first monitor that shows it and the place on it, in 16 bits. */
  lemma PositionNamesFirst(c: Client, v: (int, int))
    ensures !ClientShows(c, v.0, v.1) ==> AbsMessages(c, v) == []
    ensures forall i: nat :: FirstShowing(c, v, i) ==>
      AbsMessages(c, v) == [MouseAbs(c.monitors[i].id,
                                     ((v.0 - c.offX - c.monitors[i].x as int) % 65536) as uint16,
                                     ((v.1 - c.offY - c.monitors[i].y as int) % 65536) as uint16)]
  {
    var qs := c.Rects();
    assert forall i :: 0 <= i < |qs| ==> (Shows(c.monitors[i], c.offX, c.offY, v.0, v.1) <==> Inside(qs[i], v.0, v.1));
  }

  // ---- What nothing else does ----

  /** Only motion, the start of the loop and the grabbed client's departure touch the cursor, the
      memory of samples, the pointer or the grab. */
  lemma OnlyMotionMoves(s: State, e: Event, ch: Choice)
    requires Legal(s, e, ch) && !e.Move? && !e.Start? && !(e.Unregister? && s.active == Some(e.id))
    ensures var t := Step(s, e, ch);
      && t.v == s.v && t.last == s.last && t.haveLast == s.haveLast && t.host.warp == s.host.warp
      && t.active == s.active && t.syncing == s.syncing
      && t.phase == if e.Stop? then Stopped else if e.CaptureLost? then Lost else s.phase
  {
  }

  lemma MotionNeedsLoop(s: State, e: Event, ch: Choice)
    requires Legal(s, e, ch) && e.Move?
    ensures Step(s, e, ch).phase == s.phase == Running
  {
    var a := Aimed(s, e.x, e.y, ch);
    assert Resolve(a, ch).phase == a.phase;
  }

  /** Before the first sample nothing is remembered. */
  lemma {:induction false} MemoryNeedsSample(r: Run, n: nat)
    requires r.Valid() && n < |r.states| && r.states[n].haveLast
    ensures exists k :: 0 <= k < n && r.events[k].Move?
  {
    assert n > 0;
    RunStep(r, n - 1);
    if !r.events[n - 1].Move? {
      HaveLastStays(r.states[n - 1], r.events[n - 1], r.choices[n - 1]);
      MemoryNeedsSample(r, n - 1);
    }
  }

  lemma HaveLastStays(s: State, e: Event, ch: Choice)
    requires Legal(s, e, ch) && !e.Move?
    ensures Step(s, e, ch).haveLast == s.haveLast
  {
  }

  // ---- Disconnecting and starting ----

  /** When the grabbed client leaves, cursor, memory and pointer go where the cursor is pulled to
      the home monitor, without the margin, and nothing counts as forwarded any more. */
  lemma DisconnectPulls(s: State, id: ConnId, i: nat)
    requires ServerSane(s) && s.active == Some(id) && id in s.clients && IsHomeMonitor(s.serverMons, i)
    ensures var t := UnregisterStep(s, id);
      && PulledTo(s, i, s.v, t.v) && t.last == t.v && t.host.warp == t.v && t.host.visible
      && (!s.phase.Idle? ==> !t.host.consume)
      && t.active.None? && !t.syncing && t.btnsOn == {} && t.keysOn == {}
  {
    ClampPulls(s, s.v);
    HomeIsChosen(s.serverMons, 0, i);
  }

  /** The loop starts with the cursor at the centre of the trap monitor. */
  lemma LoopStartsAtCentre(r: Run, n: nat, i: nat)
    requires r.Valid() && n < |r.events| && r.events[n].Start? && IsTrapMonitor(r.states[n].serverMons, i)
    ensures var s, m := r.states[n], r.states[n].serverMons[i];
      r.states[n + 1] == s.(phase := Running, v := (m.x as int + m.w as int / 2, m.y as int + m.h as int / 2))
  {
    RunStep(r, n);
    ServerMonitorsAreLatest(r, n);
    TrapIsItsCentre(r.states[n].serverMons, i);
  }
}
